# Verified model of the KV block store, the cache-aware router and the vectored read loop

This project models, in Dafny, the parts of ai-storage-lab whose correctness rests on more than one
function, and proves what they promise.

**The block store** (`kvstore/`). A table has one row per block key and tier. Payloads are written
before rows are published, rows are tombstoned before payloads are deleted, segment files only grow, and
compaction rewrites live records and drops files. `KvProtocol` is the whole system as interleaved steps:
readers acquire, read, touch and release; one thread at a time stores, evicts or compacts, one physical
effect or table statement per step (a store of the memory tier, whose payload dies with the process, is
one step with its upsert); writes grow in parts of any size, every operation may fail, and the process
may die between any two steps and be opened again. `KvInvariant` and `KvSteps` give the invariant and
show that each step keeps it; `KvSafety`, `KvCapacity` and `KvCompaction` say what follows for whole
runs. The classes `Store.MetadataStore`, `FileTier.NvmeTier`, `ObjectTier.S3Tier` and
`MemTier.MemoryTier` model the code with its fields, branches and faults. The lookups, loads, stores,
evictions and compactions of the three tiers return as ghost results the run of the protocol that they
are, so the statements about runs hold of them. `Record`, `ObjectBody` and `Identity` hold the record
format with its two parsers and the encodings of keys. `Eviction` is the eviction controller.

**The router** (`router/`). `CacheModel`, `CacheFold` and `CacheSnapshot` treat the cache index as a
value: delivery of events is compared with a reference that has no state at all, and a restored index
with the original. `CacheIndex.Index` is the map of maps that is updated in place. `Workers`,
`Lifecycle` and `Proxy.Handler` are the worker records, the lifecycle as steps under one lock, and the
handler that performs them. `BlockHash` is the chained, namespace-isolated block hash. `EventBus` is
the in-memory bus with every goroutine, lock, wait group and channel.

**The I/O bench** (`io-profile/`). `VectoredIo` is the loop over short vectored reads.

Where the model follows the code rather than an expectation one might have:

- An accepted eviction event does not always remove its block: entries stored locally carry revision
  numbers that can outrank it. `CacheFold.LocalStoreOutranksEviction` is such a case and
  `CacheFold.EvictionHitsIff` the exact condition. Among ordered events alone evictions always hit.
- A restored index forgets which event ids were applied. `CacheSnapshot.OldIdsAreForgotten` is an event
  that only the restored index applies. `CacheSnapshot.EventKeepsTwinsIff` is the exact condition: the
  two stay equivalent unless the restored index accepts the forgotten event and that is an ordered
  event, an unordered eviction that hits an unexpired entry, or an unordered store, this last one with
  the exception of an exhausted revision counter and the same entry in the original.
- An event id counts as used from its first valid delivery on, also if that event was stale.
- A rejected stale location still advances the index's revision counter.
- A location that is not canonical is reported before anything is acquired, and the row stays.
- A batch size of zero makes the eviction controller stop at once although rows could be evicted.

Hypotheses are explicit. `FaithfulCodec` says that JSON reads back what it wrote, that metadata with a
valid key survives its dictionary form, and that digests are 64 hexadecimal digits;
`Codecs.FaithfulCodecExists` exhibits a codec that meets it. Nothing is assumed about collisions in
the store. `BlockHash.CollisionFree` is about the messages of two chains and nothing else. Clock
readings are parameters; a point in time is an integer, since every float is a whole multiple of
2^-1074. `hide` statements in proofs only restrict what the verifier looks at.

## Model

| member | source | states |
|---|---|---|
| Identity.StoragePathInjective | kvstore/kvstore/layout.py:27-45 | valid keys with the same storage path are the same key: the unpadded base64url components and the hash parts lose nothing |
| Identity.StoragePathsAreSafe | kvstore/kvstore/layout.py:27-45 | no component of a valid key's path is empty, `.`, `..` or contains a slash |
| Identity.NamespaceInjective | kvstore/kvstore/metadata.py:50-84 | the JSON namespace string together with the block hash determines the key, so a row belongs to one key |
| Identity.ComponentInjective | kvstore/kvstore/layout.py:27-29 | a component determines the string it encodes, although the padding is stripped |
| Identity.Base64DigitsInjective | kvstore/kvstore/layout.py:27-29 | digit strings without padding determine the bytes (section 5 of RFC 4648) |
| Identity.Utf8Injective | kvstore/kvstore/layout.py:27-29 | UTF-8 is injective on scalar values |
| Record.RecordIsSelfDelimiting | kvstore/kvstore/nvme_tier.py:530-554 | a record that parses parses the same with any bytes behind it |
| Record.CutAtRecordEnd | kvstore/kvstore/nvme_tier.py:523-554 | a record that parses from a longer string parses as a file once it is cut at its own end |
| Record.SegmentReadIsSliceRead | kvstore/kvstore/nvme_tier.py:514-528 | reading a segment record in place accepts exactly what parsing its slice as a file accepts, with the same result |
| Record.LayoutFieldAside | kvstore/kvstore/record.py:30-78 | readers with and without the layout requirement differ in nothing but the layout field |
| Record.ReadInvertsWrite | kvstore/kvstore/record.py:19-78 | what the writer framed reads back as the same header fields, metadata and payload, for every payload within the limit |
| Record.BigEndian32RoundTrip | kvstore/kvstore/record.py:19-28 | the length field of a record reads back as the length that was written |
| Codecs.FaithfulCodecExists | kvstore/kvstore/record.py:19-27 | there is a codec that meets the hypothesis under which records and runs are studied, so no result is empty |
| ObjectBody.ReadChunk | kvstore/kvstore/s3_tier.py:480-490 | one read of a response body: never more than asked for, and the errors of a body that misbehaves |
| ObjectBody.ReadExact | kvstore/kvstore/s3_tier.py:462-478 | collects exactly the next bytes of an honest body under every schedule of short reads, or reports the truncation |
| ObjectBody.ReadBody | kvstore/kvstore/s3_tier.py:386-460 | equals the whole-object parse under every schedule of short reads, never asks for more than one byte past what the record announces, accepted or not, and always closes the body |
| ObjectBody.ObjectsAndFilesAcceptAlike | kvstore/kvstore/s3_tier.py:386-460 | the streaming parser and the file parser accept the same byte strings with the same result |
| Tiers.ReadIsParseOfExtent | kvstore/kvstore/nvme_tier.py:508-528 | reading through a canonical location succeeds exactly if its bytes are there and parse on their own |
| Tiers.NewRecordHolds | kvstore/kvstore/nvme_tier.py:143-165 | the record a store writes satisfies every check of a later load and yields the data |
| Tiers.RewrittenHolds | kvstore/kvstore/nvme_tier.py:365-371 | the record compaction writes satisfies every check of a load and yields the payload of the record it replaces |
| Rows.UpsertKeepsConsistent | kvstore/kvstore/metadata_store.py:167-228 | an upsert leaves all rows of a key with one descriptor |
| Store.MetadataStore.constructor | kvstore/kvstore/metadata_store.py:126-151 | a new owner keeps every row and its state and starts with no reader anywhere |
| Store.MetadataStore.ValidatePayloadDescriptor | kvstore/kvstore/metadata_store.py:230-264 | accepts exactly the valid descriptors that no row of the key in any tier and state contradicts |
| Store.MetadataStore.Upsert | kvstore/kvstore/metadata_store.py:167-228 | publishes with merged counters and kept readers, refuses conflicts and tombstones without a change |
| Store.MetadataStore.LookupAndAcquire | kvstore/kvstore/metadata_store.py:279-306 | hands out the location and counts one more reader of this owner, or does nothing |
| Store.MetadataStore.Release | kvstore/kvstore/metadata_store.py:374-382 | the count of this owner falls by one and never below zero; state, location, metadata and all other rows stay |
| Store.MetadataStore.Touch | kvstore/kvstore/metadata_store.py:329-338 | an active row gets the new time and one more use, keeps location, metadata and readers, and nothing else changes |
| Store.MetadataStore.Delete | kvstore/kvstore/metadata_store.py:340-351 | removes the row exactly if it is active and this owner has no reader on it |
| Store.MetadataStore.BeginDelete | kvstore/kvstore/metadata_store.py:384-418 | tombstones an unread row, returns the same location again for a tombstone, and refuses a row that is read |
| Store.MetadataStore.FinishDelete | kvstore/kvstore/metadata_store.py:420-429 | the tombstone is gone, an active row stays, and so does every other row |
| Store.MetadataStore.BytesInUse | kvstore/kvstore/metadata_store.py:488-494 | the sum over exactly the active rows of the tier |
| Store.MetadataStore.LruCandidates | kvstore/kvstore/metadata_store.py:442-458 | as many unread active rows as there are up to the limit, oldest first, and none left out is older |
| KvSteps.AcquireIsSafe | kvstore/kvstore/metadata_store.py:279-306 | acquiring keeps the invariant and every published payload, descriptor and tombstone |
| KvSteps.TouchIsSafe | kvstore/kvstore/metadata_store.py:329-338 | so does touching, also while a mutation is under way |
| KvSteps.ReleaseIsSafe | kvstore/kvstore/metadata_store.py:374-382 | so does a release that is paired with an acquire |
| KvSteps.BeginStoreIsSafe | kvstore/kvstore/nvme_tier.py:105-123 | so does entering a store after its checks |
| KvSteps.ReplayIsSafe | kvstore/kvstore/nvme_tier.py:137-140 | so does writing the row of the same payload again |
| KvSteps.StartWriteIsSafe | kvstore/kvstore/nvme_tier.py:438-481 | so does opening the file or segment to write to, which a store does once there is room |
| KvSteps.WriteIsSafe | kvstore/kvstore/nvme_tier.py:438-481 | so does writing any further part of a record |
| KvSteps.PublishIsSafe | kvstore/kvstore/nvme_tier.py:164-165 | so does the rename of a finished file or the upload of an object |
| KvSteps.CommitIsSafe | kvstore/kvstore/nvme_tier.py:166-174 | so does the upsert that publishes the row |
| KvSteps.BeginEvictIsSafe | kvstore/kvstore/nvme_tier.py:259-263 | so does the tombstone |
| KvSteps.UnlinkIsSafe | kvstore/kvstore/nvme_tier.py:264-275 | so does the deletion of the payload |
| KvSteps.FinishDeleteIsSafe | kvstore/kvstore/nvme_tier.py:276-281 | so does the removal of the row |
| KvSteps.MoveIsSafe | kvstore/kvstore/nvme_tier.py:344-370 | so does taking a row to be moved |
| KvSteps.CommitMoveIsSafe | kvstore/kvstore/nvme_tier.py:371-374 | so does pointing the row at the moved record |
| KvSteps.ReleaseMoveIsSafe | kvstore/kvstore/nvme_tier.py:375-376 | so does letting the moved row go |
| KvSteps.SweepIsSafe | kvstore/kvstore/nvme_tier.py:655-682 | so does unlinking a segment file that no active row points into |
| KvSteps.AbortIsSafe | kvstore/kvstore/nvme_tier.py:438-456 | so does an error at any point of a store, an eviction or a compaction |
| KvSteps.MemoryStoreIsSafe | kvstore/kvstore/memory_tier.py:98-114 | so does a store of the memory tier |
| KvSteps.MemoryEvictIsSafe | kvstore/kvstore/memory_tier.py:179-187 | so does an eviction of the memory tier |
| KvSteps.DropStaleIsSafe | kvstore/kvstore/memory_tier.py:35-46 | so does dropping a row whose bytes are gone |
| KvSteps.CrashIsSafe | kvstore/kvstore/metadata_store.py:126-151 | so does dying at any step and being opened by a new owner |
| KvSafety.RunsKeepInv | kvstore/kvstore/metadata_store.py:154-165 | the invariant holds in every state of every run: every interleaving, every failure, every crash |
| KvSafety.PublishedBlocksAreComplete | kvstore/kvstore/nvme_tier.py:105-174 | in every reachable state every active file or object row is backed by a complete record that is what the row says |
| KvSafety.CountIsHolders | kvstore/kvstore/metadata_store.py:353-382 | in every reachable state the in-flight count of a row is the number of its outstanding holders, and a held row is active |
| KvSafety.ReadersArePinned | kvstore/kvstore/metadata_store.py:279-418 | from acquire to release, whatever else runs, the row stays active at the same location and the bytes there do not change |
| KvSafety.HoldSurvives | kvstore/kvstore/metadata_store.py:374-382 | no step but its own release and a crash ends a reader's hold |
| KvSafety.DescriptorIsFixed | kvstore/kvstore/metadata_store.py:230-264 | over any run in which the key always has some row in some tier, its descriptor never changes |
| KvSafety.LoadsAgreeAcrossTiers | kvstore/kvstore/memory_tier.py:120-150 | all loads of a key from any tiers while it stays published agree in length and checksum |
| KvSafety.PayloadIsFixed | kvstore/kvstore/nvme_tier.py:196-230 | a row that stays active keeps its very payload across moves, replays and crashes |
| KvSafety.TombstonesStay | kvstore/kvstore/metadata_store.py:384-429 | a tombstone never turns active again, through failures and reopening, until its row is gone |
| KvSafety.TombstonesBlockStores | kvstore/kvstore/metadata_store.py:182-185 | for as long as the tombstone is there no step of the run acquires the row, begins or commits a store or a move of it, or publishes it in memory |
| KvCapacity.UsageStaysWithinLimit | kvstore/kvstore/nvme_tier.py:421-436 | in every state of every run, with any interleaving, failure and crash, the active bytes of the file tier are at most its limit |
| KvCapacity.LimitsAreKept | kvstore/kvstore/nvme_tier.py:105-174 | the same for every run that starts within the limit, a store under way having its bytes reserved |
| KvRuns.RetriedEvictFinishes | kvstore/kvstore/nvme_tier.py:259-281 | from every sound state an eviction of a tombstone runs to its end, and row and payload are gone |
| KvCompaction.CompactionPreservesMeaning | kvstore/kvstore/nvme_tier.py:299-393 | after any part of a compaction, with readers beside it and an error anywhere, the same rows are active with the same payloads and descriptors |
| KvCompaction.CompactionLeavesOnlyLiveRecords | kvstore/kvstore/nvme_tier.py:314-393 | a compaction begun while nobody reads from the tier and run to its end leaves every byte of every segment file in exactly one live record |
| Loading.Inspect | kvstore/kvstore/nvme_tier.py:196-230 | what was read is accepted exactly if it matches row, key, length, digest and descriptor; only then, or when the row itself is at fault, does it count as a use |
| Loading.ReadHeld | kvstore/kvstore/nvme_tier.py:192-245 | acquire, read, inspect, release: only the record of the row is handed out, and the reader count is what it was unless the release fails |
| Loading.RestoreRun | kvstore/kvstore/nvme_tier.py:124-140 | comparing and writing again is a run of a reader and one replay step, with the same payload and usage |
| FileTier.NvmeTier.Lookup | kvstore/kvstore/nvme_tier.py:83-103 | reports exactly the locations that are not canonical, finds what is there and deletes stale rows only; a run of the protocol on any disk |
| FileTier.NvmeTier.Evict | kvstore/kvstore/nvme_tier.py:259-281 | nothing to delete, a tombstone that stays, or row and file gone; each outcome is a run of the protocol |
| FileTier.NvmeTier.Invalidate | kvstore/kvstore/nvme_tier.py:246-257 | after corruption no active row is left unless the error says so |
| FileTier.NvmeTier.Load | kvstore/kvstore/nvme_tier.py:188-257 | on arbitrary disk contents: only bytes that match the row are handed out, corruption removes the row or says that it could not, the hold is given back or, if that fails, stays with its reader, other rows and files are untouched; every outcome is a run of the protocol |
| FileTier.NvmeTier.EvictOldest | kvstore/kvstore/nvme_tier.py:426-434 | evicts a least recently used row that nobody reads, if there is one |
| FileTier.NvmeTier.EnsureCapacity | kvstore/kvstore/nvme_tier.py:421-436 | victims go oldest first and not one too many; it fails exactly if the rows being read leave no room |
| FileTier.NvmeTier.StoreNew | kvstore/kvstore/nvme_tier.py:141-174 | a new block is published complete or not at all, within capacity; a write that fails after any part and an upsert that fails after the whole leave no row |
| FileTier.NvmeTier.Restore | kvstore/kvstore/nvme_tier.py:124-140 | without a failing release or upsert, storing an existing key succeeds exactly for the same payload; every outcome is a run of the protocol |
| FileTier.NvmeTier.Store | kvstore/kvstore/nvme_tier.py:105-174 | a stored block is active with these bytes; refusals change nothing; full exactly if length plus bytes being read exceeds the limit; usage stays within the limit; every outcome is a run of the protocol |
| Accounting.NotMoreUsage | kvstore/kvstore/metadata_store.py:488-494 | an operation that activates no row of a tier and resizes none never raises the usage of that tier |
| FileTier.NvmeTier.Reencode | kvstore/kvstore/nvme_tier.py:347-370 | a record is rewritten only if it is the one the row describes, and then with the row's counters |
| FileTier.NvmeTier.MoveEntry | kvstore/kvstore/nvme_tier.py:344-376 | one record moved or the operation given up, as a run; all other rows and records stay |
| FileTier.NvmeTier.MoveRecord | kvstore/kvstore/nvme_tier.py:371-376 | the appended record takes the place of the old one, or the append fails and the row stays where it was; bytes that other locations denote do not change |
| FileTier.NvmeTier.References | kvstore/kvstore/nvme_tier.py:655-669 | the files that active rows point into, or an error if a location cannot be trusted |
| FileTier.NvmeTier.RemoveUnreferencedSegmentFiles | kvstore/kvstore/nvme_tier.py:655-682 | removes unreferenced segment files and nothing else, and all of them unless an unlink fails |
| FileTier.NvmeTier.MoveAll | kvstore/kvstore/nvme_tier.py:341-376 | every unread record moved, or the run up to the error |
| FileTier.NvmeTier.CompactSegments | kvstore/kvstore/nvme_tier.py:299-393 | same payloads and descriptors before and after whatever happens, rows in use untouched, only referenced files left, and only live records if nobody was reading from the tier; fails only for a fault or a header that no longer fits |
| ObjectTier.S3Tier.Lookup | kvstore/kvstore/s3_tier.py:93-116 | a row is stale only if the bucket says the object is missing; a bucket that does not answer changes nothing; a run of the protocol |
| ObjectTier.S3Tier.Evict | kvstore/kvstore/s3_tier.py:240-261 | the row goes only if the object is seen to be gone; otherwise the tombstone stays, whatever became of the object |
| ObjectTier.S3Tier.Fetch | kvstore/kvstore/s3_tier.py:324-335 | a friendly answer yields what the location denotes; any other yields an error or, at most, the record the object begins with |
| ObjectTier.S3Tier.Load | kvstore/kvstore/s3_tier.py:175-238 | through answers that end early, overrun, raise or do not close: only bytes that match the row; an unreachable bucket costs no row; corruption removes the row or says that it could not; every outcome is a run of the protocol, also one whose release fails |
| ObjectTier.S3Tier.Restore | kvstore/kvstore/s3_tier.py:138-154 | whatever the bucket answers, success means the same payload, and with a friendly answer the same payload means success; every outcome is a run of the protocol |
| ObjectTier.S3Tier.StoreNew | kvstore/kvstore/s3_tier.py:155-169 | an upload that reports an error publishes nothing, also if the object arrived, and neither does an upsert that fails |
| ObjectTier.S3Tier.Store | kvstore/kvstore/s3_tier.py:118-169 | a stored block is active with these bytes; refusals change nothing; every outcome is a run of the protocol and touches one object |
| MemTier.MemoryTier.Lookup | kvstore/kvstore/memory_tier.py:35-51 | rows without data and data without rows disappear, the byte count stays exact and does not grow; a run of the protocol if the data was published |
| MemTier.MemoryTier.Evict | kvstore/kvstore/memory_tier.py:179-187 | row and payload go together or not at all, the byte count does not grow, and the outcome is a run of the protocol |
| MemTier.MemoryTier.EvictFirst | kvstore/kvstore/memory_tier.py:199-206 | the first evictable key in order goes; none goes only if none can |
| MemTier.MemoryTier.EnsureCapacity | kvstore/kvstore/memory_tier.py:196-208 | terminates; victims are the first candidates in use order and each was needed; full only when no candidate is left |
| MemTier.MemoryTier.StoreNew | kvstore/kvstore/memory_tier.py:98-114 | a failed commit undoes exactly the insertion; full exactly if the payloads being read leave no room |
| MemTier.MemoryTier.Refresh | kvstore/kvstore/memory_tier.py:67-96 | the same payload again is a use, another one a conflict that changes nothing |
| MemTier.MemoryTier.Store | kvstore/kvstore/memory_tier.py:53-118 | the byte count stays the sum of the stored lengths and within the limit, every outcome is a run of the protocol, and an error leaves no trace of the payload |
| MemTier.MemoryTier.Load | kvstore/kvstore/memory_tier.py:120-177 | hands out the stored bytes exactly if they match the row; corruption removes row and payload or says that it could not; the hold is given back unless that fails; the byte count does not grow; a run of the protocol if the data was published |
| MemTier.MemoryTier.Visit | kvstore/kvstore/memory_tier.py:126-165 | acquire, check, touch, release: a use of the row exactly if the payload passes, with the hold left behind if the release fails; a run of the protocol |
| MemTier.HealthyPayload | kvstore/kvstore/memory_tier.py:128-145 | in every sound state every stored payload has an active row and passes every check of a load |
| Eviction.EvictBytes | kvstore/kvstore/eviction.py:24-45 | usage drops by exactly the reported bytes, oldest first and none too many; terminates; a shortfall means no evictable row is left |
| Eviction.EvictBatch | kvstore/kvstore/eviction.py:33-43 | a non-empty batch always makes progress and keeps the books |
| CacheModel.ValidEventAgrees | router/internal/cacheindex/eventlog.go:150-204 | a valid event and its location name the same block, worker and number, and validation is idempotent |
| CacheModel.RunsKeep | router/internal/cacheindex/index.go:61-164 | in every index built by operations entries sit at their place, are complete and no newer than the revision counter, and watermarks are positive |
| CacheFold.EventsFold | router/internal/cacheindex/eventlog.go:93-225 | after any deliveries of positive-numbered events, duplicated and reordered, the index is last-writer-wins over first uses that are strict new maxima of their worker; ids and watermarks likewise |
| CacheFold.RedeliveryIsNoOp | router/internal/cacheindex/eventlog.go:206-225 | an event that came before changes nothing when it comes again, at any time |
| CacheFold.ReplayIsNoOp | router/internal/cacheindex/eventlog.go:52-66 | replaying the log, whole or in part, in any order and any number of times, changes nothing |
| CacheFold.InvalidEventsLeaveNoTrace | router/internal/cacheindex/eventlog.go:93-97 | deliveries build the same index with their invalid events and without them |
| CacheFold.EvictionHitsIff | router/internal/cacheindex/index.go:132-152 | an accepted eviction empties its place exactly if the entry there is not ahead of it |
| CacheFold.LocalStoreOutranksEviction | router/internal/cacheindex/index.go:34-53 | a concrete index in which an accepted eviction removes nothing |
| CacheSnapshot.RestoreIsInvisible | router/internal/cacheindex/snapshot.go:22-112 | after every further sequence of operations with fresh ids the restored index answers every query from the snapshot time on as the original, with the same watermarks |
| CacheSnapshot.EventKeepsTwinsIff | router/internal/cacheindex/eventlog.go:206-225 | an event tells a restored index from the original exactly if its id was forgotten and its effect is not harmless |
| CacheSnapshot.TwinsThroughoutIff | router/internal/cacheindex/snapshot.go:83-112 | over a whole run of operations the two stay equivalent exactly if no operation brings such an event |
| CacheSnapshot.RestoreIsInvisibleIfTolerated | router/internal/cacheindex/snapshot.go:22-112 | in all such runs, whatever ids they use, restored and original index answer every query from the snapshot time on alike, with the same watermarks and revision counter |
| CacheSnapshot.RestoredIsTwin | router/internal/cacheindex/snapshot.go:83-133 | a restored index differs from the original by expired entries and forgotten ids only |
| CacheSnapshot.RestoredIsWellKept | router/internal/cacheindex/snapshot.go:83-133 | whatever a snapshot file says, also one of the first schema, the restored index is well kept |
| CacheSnapshot.OldIdsAreForgotten | router/internal/cacheindex/snapshot.go:86-88 | from a reached index, an event that the original refuses and the restored index applies |
| CacheIndex.Index.StoreLocked | router/internal/cacheindex/index.go:61-102 | the update of the map of maps is the update of the model, and a refused location leaves entries and watermarks alone |
| CacheIndex.Index.Store | router/internal/cacheindex/index.go:34-53 | a local store is the model's |
| CacheIndex.Index.PutLocation | router/internal/cacheindex/index.go:55-59 | a stored location is the model's, stale ones included |
| CacheIndex.Index.Remove | router/internal/cacheindex/index.go:132-152 | removal from the map of maps is the model's eviction and leaves no empty block behind |
| CacheIndex.Index.Purge | router/internal/cacheindex/index.go:114-130 | no entry and no watermark of the worker is left, everything else is, and the count is the number of entries removed |
| CacheIndex.Index.OverlapByWorker | router/internal/cacheindex/index.go:176-189 | for every worker the number of requested blocks that are live, and only positive numbers are reported |
| CacheIndex.Index.LocationsByWorker | router/internal/cacheindex/index.go:191-204 | for every worker the live locations in the order of the blocks |
| CacheIndex.Index.AcceptEvent | router/internal/cacheindex/eventlog.go:206-225 | the decision of the model, with the id noted |
| CacheIndex.Index.ApplyEvent | router/internal/cacheindex/eventlog.go:93-148 | applying an event is the model's, and only invalid events are errors |
| CacheIndex.Index.ReplayEventLog | router/internal/cacheindex/eventlog.go:52-66 | applies the tail of the log that the limit selects, up to the first invalid event |
| CacheIndex.Index.TakeSnapshot | router/internal/cacheindex/snapshot.go:22-52 | lists every live entry once and nothing else, with the counters |
| CacheIndex.Index.RestoreSnapshot | router/internal/cacheindex/snapshot.go:83-112 | rebuilds the model's restored index from any snapshot |
| Workers.Normalize | router/internal/proxy/config.go:159-187 | the three ways to say draining agree afterwards, identity and counts are kept, routability does not change, and an unset memory pressure becomes the largest one known |
| Workers.NormalizeWorkerDefaults | router/internal/proxy/config.go:159-187 | the field-by-field update computes it |
| Workers.NormalizeIsIdempotent | router/internal/proxy/config.go:159-187 | normalizing again changes nothing |
| Workers.ResourcePressure | router/internal/common/types.go:97-106 | the largest of the three pressures |
| Workers.Validate | router/internal/proxy/config.go:102-127 | accepts exactly the non-empty lists with unique ids, usable URLs and natural counts |
| Workers.WorkerReplacementConflicts | router/internal/proxy/handler.go:695-729 | the ids of exactly the workers that would change identity or leave with work in hand, in order |
| Workers.RemovedWorkerIDs | router/internal/proxy/handler.go:731-743 | exactly the workers that are in the old list and not in the new one |
| Lifecycle.RunsAreSafe | router/internal/proxy/handler.go:765-789 | in every reachable state counts equal outstanding reservations, ids are unique, and every reserved worker is registered as promised |
| Lifecycle.ReservedWorkersStay | router/internal/proxy/handler.go:247-265 | from reservation to release the worker is registered under the same URL and topology, through drains and replacements |
| Lifecycle.NoneLost | router/internal/proxy/handler.go:695-729 | a replacement that nothing blocks takes no worker away from a request that holds it |
| Lifecycle.SafeToRemoveIsTrue | router/internal/common/types.go:108-114 | a worker reported as safe to remove holds no request, is not routable and cannot be reserved |
| Lifecycle.DrainingOnlyFalls | router/internal/proxy/handler.go:269-295 | once a worker drains, the set of its requests only shrinks until it is undrained or replaced |
| Proxy.Handler.constructor | router/internal/proxy/config.go:102-127 | a checked configuration is a safe start |
| Proxy.Handler.ReserveRoutableWorker | router/internal/proxy/handler.go:765-779 | reserves exactly if the worker is registered and routable, and promises what the list says |
| Proxy.Handler.ReleaseWorker | router/internal/proxy/handler.go:781-789 | gives one reservation back |
| Proxy.Handler.HandleWorkerDrain | router/internal/proxy/handler.go:269-295 | one lifecycle step for a registered worker; a drained one is not routable, an undrained one is |
| Proxy.Handler.HandleReplaceWorkers | router/internal/proxy/handler.go:211-267 | replaced exactly if valid and unblocked; otherwise nothing changes; the index forgets the workers that left and no other |
| BlockHash.ComputeOne | router/internal/blockhash/blockhash.go:52-79 | the pieces written to the hasher are the serialized message |
| BlockHash.ComputeBlocks | router/internal/blockhash/blockhash.go:34-50 | one hash per block, each over its parent, its tokens and the namespace, the last block possibly short |
| BlockHash.MessageInjective | router/internal/blockhash/blockhash.go:52-79 | parent, namespace and tokens can be read back from the length-prefixed message |
| BlockHash.ExtensionKeepsHashes | router/internal/blockhash/blockhash.go:34-50 | extending the token list changes no hash of a full block |
| BlockHash.EqualHashesMeanEqualPrefixes | router/internal/blockhash/blockhash.go:34-79 | without collisions equal hashes mean equal namespaces, equal positions and equal tokens up to the end of the block, even for different block sizes |
| EventBus.RunsNeverPanic | router/internal/cacheindex/eventbus.go:38-160 | in every interleaving: no send on a closed channel, no channel closed twice, no negative wait group |
| EventBus.SendersFindOpenChannels | router/internal/cacheindex/eventbus.go:88-103 | a goroutine in the select is counted and its channel is open |
| EventBus.ChannelsCloseEmpty | router/internal/cacheindex/eventbus.go:48-57 | a channel closes in one place, with nobody counted and `done` closed, and stays closed |
| EventBus.CountedCanStep | router/internal/cacheindex/eventbus.go:93-102 | once `done` is closed every counted sender can step, and its step brings the close nearer |
| EventBus.NobodyEnters | router/internal/cacheindex/eventbus.go:38-46 | once `done` is closed no step counts a new sender |
| EventBus.CloseCompletes | router/internal/cacheindex/eventbus.go:48-57 | from every sound state a close that has begun can be completed by the counted senders alone, without a step of anybody else |
| EventBus.ClosesAll | router/internal/cacheindex/eventbus.go:143-160 | from every sound state a goroutine that closes a list of subscribers can be brought to its end with every channel on the list closed, also those that others are closing |
| VectoredIo.Preadv | io-profile/src/io_path_bench.cpp:162-170 | one positioned read fills a prefix of the addresses, and nothing only at the end of file or buffers |
| VectoredIo.Advance | io-profile/src/io_path_bench.cpp:181-189 | what is left of the vectors is what is left of the addresses, across empty and partly filled parts |
| VectoredIo.PositionedIovFull | io-profile/src/io_path_bench.cpp:162-191 | under every schedule of short reads and interrupts the loop is one contiguous read of all that fits, and touches no other byte; an error leaves a prefix |
| VectoredIo.FourParts | io-profile/src/io_path_bench.cpp:313-326 | the four buffers cover the block exactly and differ by at most one byte |

## Left out

- SQLite, `flock`, the filesystem and boto3: an atomic table, a single owner, a map from paths to bytes and a map of objects stand for them.
- Persisted JSON that is not metadata, URI quoting and path resolution: locations are structured values, and rows that cannot be decoded do not occur.
- The choice of a segment file by name and size: a store takes the name, and compaction a function that picks it, so the results hold for every choice; bounds on file sizes are not stated.
- fsync and power loss: the code disclaims durability by default.
- A change of `layout_mode` between two openings of a store.
- `close()` of the metadata store, `dry_run`, byte totals of directories in reports, metrics and timing.
- MemTier.MemoryTier.Refresh: the second comparison of descriptors in the source cannot fail after the first one and is not repeated.
- FileTier.NvmeTier.CompactSegments: the counter of skipped records is not reported, because a row cannot move while the mutation lock is held (FileTier.NvmeTier.Reencode states when a record would be skipped).
- FileTier.NvmeTier.EnsureCapacity: the parameter that excludes the key being stored is omitted, because that key has no row at the only call.
- FileTier.NvmeTier.EvictOldest: of the sixteen candidates only the first is tried, because under the mutation lock its eviction cannot be refused.
- Eviction.EvictBytes: the controller is stated for the file tier; the look-up of a tier by name and its answer for an unknown tier are omitted.
- CacheIndex.Index.TakeSnapshot: the sort order of the listed locations and the snapshot file format are omitted, because restoring does not depend on them.
- EventBus: acknowledgement callbacks and the contents of messages; a watcher may remove its subscriber at any time and any number of times.
- Proxy.Handler: HTTP, JSON decoding and the texts of answers; URL syntax is a parameter.
- VectoredIo.PositionedIovFull: the write direction, and byte counts beyond the range of the machine types.
- The tier manager, prefetching, fault injection, routing scores, tokenizers, configuration parsing, benchmarks and scripts.
