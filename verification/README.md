# XVARNA verification

Dafny models of the stateful and algorithmic core of XVARNA, with proofs of the properties
its callers rely on. `dafny verify dfyconfig.toml` checks the whole project.

* **Cache** (`ByteStrings`, `KeyCodec`, `EntryCodec`, `MemoryTier`, `DiskTier`, `Cache`,
  `CacheStore`, `CacheRuns`, `CacheLookups`, `CacheEffects`, `LruInclusion`, `CacheInterleaving`,
  `CacheSequential`, `CacheAgreement`): the two-tier content-addressed store. `CacheStores.CacheStore`
  updates its fields in place; each method is tied to a function in `Cache`, and the run theorems are
  about those functions. `CacheEffects` says what each operation leaves behind. The file system is a map
  from names to bytes and modification times; directory listings, write times, process numbers and the
  hash function are parameters. Byte counters and the access clock are unbounded naturals.
* **Scheduler** (`Scheduler`, `SchedulerSafety`, `SchedulerRuns`, `SchedulerAdmission`,
  `SchedulerOrder`, `SchedulerDelivery`, `SchedulerOutcomes`, `SchedulerMachine`): the bounded analysis
  scheduler as a protocol of atomic steps per job, interleaved in every way, under a fixed policy, up to
  the delivery of each result to its caller.
  `SchedulerMachine.AnalysisScheduler` performs the steps on the shared fields and one whole call in
  program order; its ghost trace ties every state of the object to a run.
* **Result pairing** (`ResultPairing`, `SolveOutcomes`): the two-phase solve of a scheduled component
  with its retained results and manual mode. Results carry the iteration and work that produced them.
* **Study batches** (`StudyBatch`, `StudyBoundary`, `StudyVariables`, `StudyProtocol`,
  `StudyProgress`): row-major tables, the managed optimizer together with the native functions it
  calls, the values variables allow, and the ask/tell protocol of both sides.
* **Numerics** (`RadicalInverse`, `DigitReversal`, `BenchmarkCells`, `Timing`, `Legend`, `LegendMeaning`,
  `Parity`) in exact real arithmetic, with explicit non-finite values where the code tests for them,
  and **JSON text** (`JsonText`) against a reader for the string grammar of RFC 8259, section 7.
* `Wrappers`, `FiniteMaps`, `Sorting` and `Arithmetic` hold shared definitions and facts.

## Where the code does less than expected

* A store whose payload exceeds the memory budget leaves an older resident payload of its key in
  place, so the next lookup serves the old bytes although the disk holds the new ones
  (crates/xvarna-cache/src/lib.rs:421-423). `CacheRuns.PutAgreesIff` gives the exact guard and
  `CacheRuns.OversizePutServesOldPayload` shows the whole failing family.
* Operations on one key may overlap, because the lock is released between memory and disk
  (crates/xvarna-cache/src/lib.rs:229-260, 272-295). A lookup overtaken by a complete store,
  recovery or clearing puts the old payload back into memory
  (`CacheInterleaving.OvertakenLookupRestoresOldPayload`, `CacheAgreement.OvertakenLookupUndoesRecovery`,
  `CacheAgreement.OvertakenLookupUndoesClearing`). Two overlapping stores, or a lookup that begins
  during a store, can leave different payloads in the two tiers
  (`CacheAgreement.CrossingStoresDisagree`, `CacheAgreement.LookupDuringStoreDisagrees`). If the
  stores, recoveries and clearings of a key overlap no other operation on that key, agreement holds in
  every interleaving (`CacheAgreement.TurnsAgreeFromOpening`).
* A store writes its temporary file under a name that is not a cache entry's, and a file already
  there is lost (crates/xvarna-cache/src/lib.rs:276-285, `CacheRuns.TemporaryConsumed`). No other
  foreign file is ever touched (`CacheRuns.ForeignFilesKept`).
* The scheduler documents a completed job as one that remains current for its scope
  (dotnet/Xvarna.Native/Scheduler.cs:13). It does exactly if no submission of its scope was accepted
  since its generation check (`SchedulerOrder.CurrentSinceCheckIff`), which no policy ensures, one slot
  included (`SchedulerOrder.CompletedNeedNotBeCurrent`). Nor are results delivered in generation order
  under any policy, because the slot is released first (dotnet/Xvarna.Native/Scheduler.cs:253,
  `SchedulerOrder.DeliveryOrderNotGuaranteed`). They are if no submission is accepted while a job of
  its scope is between its passed check and its delivery (`SchedulerDelivery.ClearDeliversInOrder`),
  and accepting one at such a moment is exactly what can break the order
  (`SchedulerDelivery.AcceptanceSafeIff`, `SchedulerDelivery.TransitCanBeOvertaken`). With one slot only
  the order in which jobs are counted as completed is that of their generations
  (`SchedulerRuns.CountingOrderIff`).
* The queue counter includes submissions that are being turned away
  (dotnet/Xvarna.Native/Scheduler.cs:189-193), so a submission can be refused while the queue has room
  (`SchedulerAdmission.RefusedIff`, `SchedulerAdmission.RefusedThoughRoom`).
* Manual mode is documented as recomputing only after the run generation changes
  (dotnet/Xvarna.Native/ProductExperience.cs:32). An iteration without a stored result runs at once,
  and the branch that would show it as waiting is unreachable
  (dotnet/Xvarna.Grasshopper/ScheduledAnalysisComponent.cs:65-84). `ResultPairing.StartsExactlyWhatRuns`
  states exactly what runs.
* Parity of corridor samples ignores the aperture point and direction, and parity of path samples the
  position and forward direction: results that differ only there pass at zero tolerance
  (crates/xvarna-cli/src/advanced.rs:618-638, 907-930; `Parity.MovedAperturePasses`,
  `Parity.MovedCameraPasses`). All other fields of every row are compared.
* Which queued task the host returns to which iteration is decided by the host's base class, which is
  not part of this model. With retrieval in order pairing always holds; with retrieval by iteration
  number it fails as soon as a running iteration finds another's result under its number
  (`ResultPairing.ByIterationPairsIff`, `ResultPairing.StoredResultMakesGap`).

## Model

| member | source | states |
|---|---|---|
| KeyCodec.FromParts | crates/xvarna-cache/src/lib.rs:30-40 | the hasher is fed exactly the prefix, then every field with its length |
| KeyCodec.KeyStreamExact | crates/xvarna-cache/src/lib.rs:30-40 | the framed bytes read back as this namespace and part list exactly when they are their framing, although no part count is written |
| KeyCodec.KeyStreamInjective | crates/xvarna-cache/src/lib.rs:30-40 | two inputs feed the hasher the same bytes if and only if namespace and part list are equal |
| KeyCodec.ToHex | crates/xvarna-cache/src/lib.rs:50-57 | the text has 64 characters and is the two-digit lowercase expansion of the digest |
| KeyCodec.UnHexHex | crates/xvarna-cache/src/lib.rs:50-57 | an independent reader recovers the digest from its hexadecimal text |
| KeyCodec.EntryNameFaithful | crates/xvarna-cache/src/lib.rs:357-359 | file names are equal exactly when keys are; each is a 64-character hexadecimal stem with the cache extension |
| KeyCodec.XvcExtensionIff | crates/xvarna-cache/src/lib.rs:329-331 | a file belongs to the cache exactly if its name is a non-empty stem with the cache extension |
| KeyCodec.TemporaryNameFaithful | crates/xvarna-cache/src/lib.rs:279-282 | two stores write under one temporary name exactly if key and process number are the same |
| EntryCodec.EncodeEntry | crates/xvarna-cache/src/lib.rs:458-470 | encoding fails exactly for lengths beyond 64 bits; otherwise decoding the output under the same key returns the payload |
| EntryCodec.EncodedFields | crates/xvarna-cache/src/lib.rs:458-470 | magic, schema, flags, length, key, checksum and payload sit at their own offsets |
| ByteStrings.LittleEndianBytes | crates/xvarna-cache/src/lib.rs:463-465 | byte i of a written length weighs 256^i |
| EntryCodec.EntryExact | crates/xvarna-cache/src/lib.rs:458-490 | decoding returns a payload if and only if the bytes are precisely the encoding of that payload for that key |
| EntryCodec.EntryOwner | crates/xvarna-cache/src/lib.rs:472-490 | one byte string decodes under at most one key |
| MemoryTier.EvictToFitAccounted | crates/xvarna-cache/src/lib.rs:429-444 | the eviction loop always makes room, only removes entries, counts each removal and keeps the byte count exact |
| MemoryTier.EvictsLruPrefix | crates/xvarna-cache/src/lib.rs:429-444 | the evicted keys were all used before every key that stays, and removing them makes room |
| MemoryTier.EvictsNoMore | crates/xvarna-cache/src/lib.rs:429-444 | every least-recently-used prefix that makes room contains the evicted keys: no shorter one would do |
| MemoryTier.InsertMemoryOk | crates/xvarna-cache/src/lib.rs:419-456 | insertion keeps exact bytes, distinct stamps and the hard budget; an oversize payload changes nothing; lookup counters are untouched |
| MemoryTier.TouchOk | crates/xvarna-cache/src/lib.rs:216-229 | refreshing a stamp keeps accounting, budget and distinct stamps |
| MemoryTier.RecoverOk | crates/xvarna-cache/src/lib.rs:311-319 | recovery removes exactly the key and keeps accounting and mirrored statistics |
| DiskTier.OldestFirstOrder | crates/xvarna-cache/src/lib.rs:385-398 | the sorted listing holds every cache entry once, oldest modification first |
| DiskTier.TiesKeepListing | crates/xvarna-cache/src/lib.rs:398 | entries of one modification time are taken in listing order |
| DiskTier.RemoveToFitFront | crates/xvarna-cache/src/lib.rs:399-408 | the removal loop takes a front of the order, ends within budget, and sparing the last removed file would not |
| DiskTier.EvictDiskMinimal | crates/xvarna-cache/src/lib.rs:381-408 | eviction removes a minimal oldest-first set of cache entries, none newer than a survivor, and counts it |
| DiskTier.EvictDiskScope | crates/xvarna-cache/src/lib.rs:386-405 | whatever the listing says, only cache entries are removed and the rest is unchanged |
| CacheStores.CacheStore.constructor | crates/xvarna-cache/src/lib.rs:190-205 | opening yields an empty memory tier over the directory evicted to budget with its true inventory |
| CacheStores.CacheStore.Get | crates/xvarna-cache/src/lib.rs:214-269 | one sequential lookup: result and whole new state, in either tier, absent or corrupt, as the effects below describe it |
| CacheStores.CacheStore.TouchEntry | crates/xvarna-cache/src/lib.rs:215-229 | the first locked section ticks the clock and refreshes a resident entry |
| CacheStores.CacheStore.Put | crates/xvarna-cache/src/lib.rs:272-304 | one sequential store: whole new state, the temporary file included, failing exactly for lengths beyond 64 bits |
| CacheStores.CacheStore.WriteEntry | crates/xvarna-cache/src/lib.rs:276-285 | write, clear, rename: the entry is in place, the temporary name is gone, nothing else changed |
| CacheStores.CacheStore.RecoverCorrupt | crates/xvarna-cache/src/lib.rs:307-322 | the key leaves both tiers, the corruption is counted, the inventory refreshed |
| CacheStores.CacheStore.Clear | crates/xvarna-cache/src/lib.rs:325-345 | all cache entries and nothing else are removed; the clock and history counters stay |
| CacheStores.CacheStore.RemoveCacheFiles | crates/xvarna-cache/src/lib.rs:326-334 | exactly the files with the cache extension are removed |
| CacheStores.CacheStore.Snapshot | crates/xvarna-cache/src/lib.rs:348-355 | the snapshot shows exact resident bytes within budget and the exact entry count |
| CacheStores.CacheStore.RecordMiss | crates/xvarna-cache/src/lib.rs:365-370 | a miss is counted and nothing else changes |
| CacheStores.CacheStore.RecordCorrupt | crates/xvarna-cache/src/lib.rs:248-256 | one corruption and one miss are counted and the file leaves the disk statistics |
| CacheStores.CacheStore.InsertMemory | crates/xvarna-cache/src/lib.rs:419-456 | the in-place insertion computes the specified new state |
| CacheStores.CacheStore.MakeRoom | crates/xvarna-cache/src/lib.rs:429-444 | the loop computes the specified eviction, terminates, and never reaches its break |
| CacheStores.CacheStore.LeastRecentlyUsed | crates/xvarna-cache/src/lib.rs:430-434 | the minimum scan finds the unique entry with the smallest stamp |
| CacheStores.CacheStore.RefreshDiskInventory | crates/xvarna-cache/src/lib.rs:372-379 | disk statistics become the true inventory |
| CacheStores.CacheStore.Inventory | crates/xvarna-cache/src/lib.rs:492-506 | the scan returns the exact total size and number of cache entries |
| CacheStores.CacheStore.EvictDiskToBudget | crates/xvarna-cache/src/lib.rs:381-416 | the in-place disk eviction computes the specified new directory and counters |
| CacheStores.CacheStore.ListCacheFiles | crates/xvarna-cache/src/lib.rs:385-397 | the listing is filtered to cache entries in order |
| CacheStores.CacheStore.RemoveOldest | crates/xvarna-cache/src/lib.rs:400-408 | the removal loop computes the specified front removal and count |
| CacheRuns.RunBounded | crates/xvarna-cache/src/lib.rs:190-345 | from open on, after every operation of every run: both budgets hold, memory bytes are exact, disk statistics are the true inventory |
| CacheRuns.ForeignFilesKept | crates/xvarna-cache/src/lib.rs:276-285 | a file that is no cache entry survives every run unchanged unless a store uses its name for its temporary file |
| CacheRuns.TemporaryConsumed | crates/xvarna-cache/src/lib.rs:276-285 | a store with a disk tier leaves no file under its temporary name, whatever was there |
| CacheRuns.GetAgrees | crates/xvarna-cache/src/lib.rs:214-269 | every hit, from either tier, is the map's payload, and a lookup keeps agreement |
| CacheRuns.PutAgreesIff | crates/xvarna-cache/src/lib.rs:272-304 | a store leaves the cache in agreement with the updated map if and only if the payload fits the memory budget or its key is not resident |
| CacheRuns.OversizePutServesOldPayload | crates/xvarna-cache/src/lib.rs:419-423 | in every failing case the next lookup is a memory hit on the payload that was to be replaced |
| CacheRuns.StepAgrees | crates/xvarna-cache/src/lib.rs:190-345 | each guarded operation, restart, damage or loss keeps agreement with the map |
| CacheRuns.RunAgrees | crates/xvarna-cache/src/lib.rs:190-345 | over any guarded run the cache never disagrees with the plain map |
| CacheRuns.EveryHitIsTheLastPut | crates/xvarna-cache/src/lib.rs:214-345 | from an empty directory every hit returns the last payload put since the last clearing or recovery, and the tiers never hold different payloads for a key |
| CacheLookups.ExactLookup | crates/xvarna-cache/src/lib.rs:214-269 | while the disk tier serves the whole map a lookup hits exactly the keys of the map |
| CacheLookups.RunExact | crates/xvarna-cache/src/lib.rs:190-345 | if every store is replaceable and leaves the disk tier within budget, and nothing damages the files, the cache is exactly the plain map, through memory eviction and restarts |
| CacheLookups.LookupConserved | crates/xvarna-cache/src/lib.rs:214-269 | each lookup adds one to exactly one of memory hits, disk hits and misses; a dropped corrupt file is one corruption and one miss |
| CacheLookups.LookupsConserved | crates/xvarna-cache/src/lib.rs:214-269 | over any run hits plus misses equal the lookups made, hits equal the payloads returned, corruptions equal drops plus recoveries |
| CacheEffects.HitMakesResident | crates/xvarna-cache/src/lib.rs:214-269 | after a lookup that hits, a payload that memory can hold is resident and newest, so the next lookup of the key is a memory hit with it; a miss leaves memory as it was; the tier reported is memory exactly for resident keys |
| CacheEffects.MemoryHitEffect | crates/xvarna-cache/src/lib.rs:215-229 | a resident key becomes the newest entry and one memory hit is counted; no file and no other entry changes |
| CacheEffects.DiskHitEffect | crates/xvarna-cache/src/lib.rs:233-264 | a key only the disk has is linked into memory if it fits, displacing a shortest least-recently-used prefix; one disk hit and each displaced entry are counted; no file changes |
| CacheEffects.MissEffect | crates/xvarna-cache/src/lib.rs:233-257 | what neither tier can serve is one miss; only a file of that name that is no entry of the key is removed, and counts as corrupt |
| CacheEffects.InsertLinks | crates/xvarna-cache/src/lib.rs:419-456 | for payloads of any sizes the new entry is the newest, and exactly a shortest least-recently-used prefix of the others leaves, each counted |
| CacheEffects.StoreEffect | crates/xvarna-cache/src/lib.rs:272-304 | after a store the payload is linked into memory if it fits, its file is in place with the write time, other files differ only by a minimal oldest-first eviction, and the eviction counter grew by what left either tier |
| CacheEffects.StoredIsServed | crates/xvarna-cache/src/lib.rs:214-304 | what was just stored is served from memory if it fits there; a key not resident is served from disk exactly if its file was not evicted |
| CacheEffects.EvictionEffect | crates/xvarna-cache/src/lib.rs:381-416 | eviction removes a minimal oldest-first set of entries and counts each; memory is untouched |
| CacheEffects.OpenEffect | crates/xvarna-cache/src/lib.rs:190-205 | an opened store holds nothing in memory, and of its counters only the evictions made are not zero |
| CacheEffects.RemovalEffect | crates/xvarna-cache/src/lib.rs:307-345 | recovery makes one key a miss in both tiers and counts a corruption; clearing does so for every key and keeps clock and counters; no other file or entry changes |
| LruInclusion.InsertIncluded | crates/xvarna-cache/src/lib.rs:419-456 | inserting one payload into a smaller and a larger memory tier keeps the resident keys included and equally ordered |
| LruInclusion.TouchIncluded | crates/xvarna-cache/src/lib.rs:217-228 | a lookup of a common key keeps inclusion and common recency |
| LruInclusion.StepPaired | crates/xvarna-cache/src/lib.rs:190-345 | every common operation keeps the pairing of a small-budget and a large-budget store |
| LruInclusion.RunPaired | crates/xvarna-cache/src/lib.rs:190-345 | the pairing holds over whole runs |
| LruInclusion.MoreMemoryNeverHurts | crates/xvarna-cache/src/lib.rs:190-345 | with equal payload sizes and clean equal disks a larger memory budget keeps a superset of keys, serves at least as many memory hits and misses at most as often |
| CacheInterleaving.OpenedIsSafe | crates/xvarna-cache/src/lib.rs:190-205 | a freshly opened store satisfies the concurrent invariant |
| CacheInterleaving.MemoryKept | crates/xvarna-cache/src/lib.rs:213-264 | every locked section of every operation keeps exact memory accounting within budget |
| CacheInterleaving.EveryInterleavingSafe | crates/xvarna-cache/src/lib.rs:213-304 | in every interleaving accounting is exact, every payload returned was supplied for that very key, and hits plus misses plus lookups in flight equal lookups begun |
| CacheSequential.LookupAlone | crates/xvarna-cache/src/lib.rs:214-269 | the steps of a lookup that no other thread interrupts do exactly what the sequential lookup does and serve exactly its hit |
| CacheSequential.StoreAlone | crates/xvarna-cache/src/lib.rs:272-304 | the steps of an uninterrupted store, with the inventory and eviction that end it, do exactly what the sequential store does |
| CacheSequential.RecoveryAlone | crates/xvarna-cache/src/lib.rs:307-322 | the same for a recovery |
| CacheSequential.ClearingAlone | crates/xvarna-cache/src/lib.rs:325-345 | the same for a clearing |
| CacheAgreement.StepKept | crates/xvarna-cache/src/lib.rs:213-345 | one step of anyone keeps both tiers in agreement with the key's last completed store, and any hit on the key returns it |
| CacheAgreement.TurnsAgree | crates/xvarna-cache/src/lib.rs:213-345 | the same over whole interleavings in which stores, recoveries and clearings of the key overlap no other operation on it |
| CacheAgreement.TurnsAgreeFromOpening | crates/xvarna-cache/src/lib.rs:190-345 | from the opening of any directory: every hit is the last completed store at that moment, and between operations on the key both tiers hold it or nothing |
| CacheInterleaving.OvertakenLookupRestoresOldPayload | crates/xvarna-cache/src/lib.rs:229-264 | a lookup overtaken by a complete store puts the old payload back into memory while the disk holds the new one |
| CacheAgreement.CrossingStoresDisagree | crates/xvarna-cache/src/lib.rs:272-295 | two overlapping stores of one key can leave the first payload in memory and the second on disk |
| CacheAgreement.OvertakenLookupUndoesRecovery | crates/xvarna-cache/src/lib.rs:259-264 | a lookup overtaken by a complete recovery puts the recovered entry back into memory |
| CacheAgreement.OvertakenLookupUndoesClearing | crates/xvarna-cache/src/lib.rs:259-264 | a lookup overtaken by a complete clearing puts a cleared entry back into memory |
| CacheAgreement.LookupDuringStoreDisagrees | crates/xvarna-cache/src/lib.rs:229-295 | a lookup that begins during a store can leave the old payload in memory and the new one on disk |
| SchedulerSafety.CountsKept | dotnet/Xvarna.Native/Scheduler.cs:189-260 | every step keeps the counters equal to the jobs they count and permits plus holders equal to the limit |
| SchedulerSafety.QueueBoundKept | dotnet/Xvarna.Native/Scheduler.cs:189-194 | every step keeps accepted waiting jobs within the queue capacity |
| SchedulerSafety.OutcomesKept | dotnet/Xvarna.Native/Scheduler.cs:214-247 | every step keeps each outcome counter equal to the jobs in that state |
| SchedulerSafety.ActiveKept | dotnet/Xvarna.Native/Scheduler.cs:199-259 | the active table holds exactly the jobs between registration and removal |
| SchedulerSafety.NumbersKept | dotnet/Xvarna.Native/Scheduler.cs:195-195 | generations of a scope stay distinct, bounded by the newest, and the newest is owned |
| SchedulerSafety.PassesKept | dotnet/Xvarna.Native/Scheduler.cs:216-223 | the log of passed generation checks stays increasing per scope |
| SchedulerSafety.StaleKept | dotnet/Xvarna.Native/Scheduler.cs:216-223 | a stale or superseded job always has a newer accepted job of its scope |
| SchedulerOutcomes.OutcomeExplained | dotnet/Xvarna.Native/Scheduler.cs:201-245 | in every interleaving a job is completed exactly if it was the newest of its scope at its generation check, stale exactly if it was not, failed exactly if its operation threw an error, and cancelled exactly if its operation threw a cancellation or its token was found cancelled during its wait or after its operation returned; the cancellation handler runs for exactly the stale and the cancelled |
| SchedulerOutcomes.CancelledInTime | dotnet/Xvarna.Native/Scheduler.cs:212-216 | a job cancelled before its result has passed the token check never completes and is never stale, whatever happens afterwards |
| SchedulerRuns.RunInv | dotnet/Xvarna.Native/Scheduler.cs:189-260 | the full invariant holds after every run of interleaved steps |
| SchedulerRuns.SlotsAndQueueSafe | dotnet/Xvarna.Native/Scheduler.cs:189-260 | in every interleaving: permits plus holders equal the limit, running never exceeds it, the queue counter is accepted plus rejected-in-progress submissions, accepted ones within capacity |
| SchedulerRuns.ChecksPassInOrder | dotnet/Xvarna.Native/Scheduler.cs:195-228 | in every interleaving jobs of a scope pass the generation check in strictly increasing generation, and a job ends stale only if a later one was accepted |
| SchedulerRuns.RejectionTakesNoGeneration | dotnet/Xvarna.Native/Scheduler.cs:189-195 | the generation of a scope is the number of its accepted submissions; rejected ones have none |
| SchedulerAdmission.RefusedIff | dotnet/Xvarna.Native/Scheduler.cs:189-193 | a submission is refused if and only if, when it was counted, accepted waiting jobs and submissions being turned away had together reached the capacity |
| SchedulerAdmission.RefusedThoughRoom | dotnet/Xvarna.Native/Scheduler.cs:189-193 | a submission can be refused while no accepted job waits |
| SchedulerRuns.SerialCountsInOrder | dotnet/Xvarna.Native/Scheduler.cs:216-227 | with one slot jobs of a scope are counted as completed in generation order |
| SchedulerRuns.ParallelCountsOutOfOrder | dotnet/Xvarna.Native/Scheduler.cs:216-227 | with two slots there is a run that counts an older job of a scope after a newer one |
| SchedulerRuns.CountingOrderIff | dotnet/Xvarna.Native/Scheduler.cs:216-227 | jobs of every scope are counted as completed in generation order, in all interleavings, if and only if the concurrency limit is one |
| SchedulerOrder.CurrentSinceCheckIff | dotnet/Xvarna.Native/Scheduler.cs:195-228 | a job that passes its check is current at any later moment, counting and delivery included, if and only if no submission of its scope was accepted since |
| SchedulerOrder.CompletedNeedNotBeCurrent | dotnet/Xvarna.Native/Scheduler.cs:216-227 | under every policy a job can be counted as completed although a newer submission of its scope was accepted |
| SchedulerOrder.DeliveryOrderNotGuaranteed | dotnet/Xvarna.Native/Scheduler.cs:228-260 | under every policy a caller can receive an older result of a scope after a newer one, the slot being released before the task completes |
| SchedulerDelivery.ClearDeliversInOrder | dotnet/Xvarna.Native/Scheduler.cs:195-260 | in every interleaving in which no submission is accepted while a job of its scope is between its passed check and its delivery, results of each scope are delivered in generation order and current |
| SchedulerDelivery.AcceptanceSafeIff | dotnet/Xvarna.Native/Scheduler.cs:189-260 | that discipline is exact: from a state in order, accepting one more submission leaves all disciplined continuations in order if and only if no job of its scope is in transit |
| SchedulerDelivery.TransitCanBeOvertaken | dotnet/Xvarna.Native/Scheduler.cs:216-260 | from every reachable state with a job in transit, under every policy, some continuation delivers out of order |
| SchedulerDelivery.TakingTurnsDeliversInOrder | dotnet/Xvarna.Native/Scheduler.cs:189-260 | in particular with one unsettled job per scope results are delivered in order, every unfinished job is current, and none is ever stale |
| SchedulerRuns.StepTowardsDrain | dotnet/Xvarna.Native/Scheduler.cs:201-260 | every step of a job other than a cancellation request strictly decreases the drain measure |
| SchedulerRuns.SomeStepEnabled | dotnet/Xvarna.Native/Scheduler.cs:201-260 | no deadlock: while a job is unsettled some job can advance |
| SchedulerRuns.SettledIsDrained | dotnet/Xvarna.Native/Scheduler.cs:248-260 | when all jobs are settled queue, running and active table are empty, all permits are back, and the four outcome counters add up to the accepted jobs |
| SchedulerRuns.RunsDrain | dotnet/Xvarna.Native/Scheduler.cs:201-260 | without new submissions a run makes boundedly many advances, and when none is possible the scheduler has drained |
| SchedulerRuns.CanDrain | dotnet/Xvarna.Native/Scheduler.cs:201-260 | from every reachable state a run to the drained state exists |
| SchedulerMachine.AnalysisScheduler.constructor | dotnet/Xvarna.Native/Scheduler.cs:147-159 | the initial counters, permits and tables, with the empty trace |
| SchedulerMachine.AnalysisScheduler.Schedule | dotnet/Xvarna.Native/Scheduler.cs:179-263 | one call with its task in program order and any steps of other threads in between ends as listed and leaves the active table; a returned result whose token nobody cancelled is delivered exactly if the job was its scope's newest at the check in the trace, and stale otherwise; a cancelled ending has a cancelled token or an operation that threw a cancellation; a call still waits only without a free permit and with an uncancelled token |
| SchedulerMachine.AnalysisScheduler.Admit | dotnet/Xvarna.Native/Scheduler.cs:189-199 | a submission is either rejected without a generation or numbered, registered and waiting |
| SchedulerMachine.AnalysisScheduler.WaitForSlot | dotnet/Xvarna.Native/Scheduler.cs:206-207 | the wait ends with a slot, by a cancelled token, or not at all; a token is followed at once only as the host decides or without a free slot, and a call still waits only after every turn of the other threads |
| SchedulerMachine.AnalysisScheduler.Operate | dotnet/Xvarna.Native/Scheduler.cs:214-228 | the operation and its checks end on the way to the handler that its own end or its cancelled token calls for, or decided as completed |
| SchedulerMachine.AnalysisScheduler.Handle | dotnet/Xvarna.Native/Scheduler.cs:230-247 | after the handlers exactly one outcome is decided |
| SchedulerMachine.AnalysisScheduler.Finally | dotnet/Xvarna.Native/Scheduler.cs:248-260 | count, slot and registration go back and the task completes with the decided outcome |
| SchedulerMachine.AnalysisScheduler.Others | dotnet/Xvarna.Native/Scheduler.cs:189-260 | exactly the steps of other threads that can occur do occur, in order; of this job they can at most cancel the token |
| SchedulerMachine.AnalysisScheduler.Statistics | dotnet/Xvarna.Native/Scheduler.cs:266-284 | the limits and counters a caller reads are the policy and the true head counts, running within the limit |
| RadicalInverse.RadicalInverse | crates/xvarna-cli/src/compute.rs:772-783 | the loop computes the digits mirrored at the radix point, in [0, 1) |
| RadicalInverse.ReversedTwice | crates/xvarna-cli/src/compute.rs:772-783 | reversing k digits twice gives the index back |
| DigitReversal.ReversedDigits | crates/xvarna-cli/src/compute.rs:772-783 | digit i of the reversed number is digit k-1-i of the index |
| RadicalInverse.RadicalSplit | crates/xvarna-cli/src/compute.rs:772-783 | moving the radix point k places splits the value into reversed low digits and the inverse of the high part |
| RadicalInverse.RadicalRange | crates/xvarna-cli/src/compute.rs:772-783 | all values lie in [0, 1) |
| RadicalInverse.ReversalIsBijective | crates/xvarna-cli/src/compute.rs:772-783 | indices below base^k map one to one onto the grid j / base^k |
| RadicalInverse.DistinctIndices | crates/xvarna-cli/src/compute.rs:772-783 | distinct indices have distinct values, without a bound |
| RadicalInverse.CellOf | crates/xvarna-cli/src/compute.rs:772-783 | an index lies in a cell of width base^-k exactly when the cell number is its reversed low digits |
| RadicalInverse.OnePerCell | crates/xvarna-cli/src/compute.rs:752-783 | every window of base^k consecutive indices meets every cell exactly once |
| RadicalInverse.RotationInjective | crates/xvarna-cli/src/compute.rs:749-755 | rotation keeps distinct points distinct |
| RadicalInverse.RaysCrossTheBox | crates/xvarna-cli/src/compute.rs:740-770 | each ray starts above the box, over its footprint, and reaches past its floor, flat boxes included |
| RadicalInverse.RaysDistinct | crates/xvarna-cli/src/compute.rs:752-762 | on an axis with extent no two rays of a corpus share a coordinate |
| BenchmarkCells.OnePerGridCell | crates/xvarna-cli/src/compute.rs:752-754 | before rotation any 2^a * 3^b consecutive points meet each cell of the 2^a by 3^b grid exactly once |
| BenchmarkCells.RotationTurns | crates/xvarna-cli/src/compute.rs:753-754 | rotation adds the constant and takes off one turn exactly when the sum reaches one |
| BenchmarkCells.RayOrigin | crates/xvarna-cli/src/compute.rs:740-766 | ray i starts over the footprint in proportion to the rotated point i, as far above the box as it ends below it |
| Timing.Distribution | crates/xvarna-cli/src/compute.rs:609-628 | the minimum is least, the median and the 95th percentile have their ranks by counting, the latter the saturated rank the code computes, the mean is the truncated average |
| Timing.RankUnique | crates/xvarna-cli/src/compute.rs:609-628 | the counting meaning of a rank determines the value |
| Timing.OrderIrrelevant | crates/xvarna-cli/src/compute.rs:609-628 | ranks and mean depend only on the multiset of samples |
| Timing.MeanBetween | crates/xvarna-cli/src/compute.rs:619-626 | the truncated mean lies between any bounds of the samples, so it always fits 64 bits |
| Timing.MeanTruncates | crates/xvarna-cli/src/compute.rs:619-626 | the mean is the average without its fraction |
| JsonText.EscapeJson | crates/xvarna-cli/src/compute.rs:821-835 | the loop computes the character-wise escape |
| JsonText.ReaderAcceptsEscaped | crates/xvarna-cli/src/compute.rs:821-835 | a reader of RFC 8259 section 7 strings accepts the quoted text inside any document, stops at its own quotation mark, and returns the value with other control characters blanked |
| JsonText.RoundTripIff | crates/xvarna-cli/src/compute.rs:821-835 | the value survives exactly when it has no control character other than newline, carriage return and tab |
| JsonText.EscapedInjective | crates/xvarna-cli/src/compute.rs:821-835 | two values share an escaped form exactly when their blanked forms are equal |
| JsonText.EscapedLength | crates/xvarna-cli/src/compute.rs:821-835 | each character is written as one, and as two exactly if it needs a backslash |
| JsonText.NoControlWritten | crates/xvarna-cli/src/compute.rs:821-835 | no control character is ever written |
| Legend.QuantileMonotone | dotnet/Xvarna.Native/ProductExperience.cs:369-376 | quantiles rise with the probability, stay within the data, and end at its extremes |
| Legend.InterpolatedBetween | dotnet/Xvarna.Native/ProductExperience.cs:369-376 | an interpolated value lies between its two neighbours |
| Legend.DomainProper | dotnet/Xvarna.Native/ProductExperience.cs:304-321 | every mode ends with minimum below maximum and never narrows the raw domain |
| LegendMeaning.DomainMeans | dotnet/Xvarna.Native/ProductExperience.cs:304-321 | the domain is what the mode asks for of the data: its extremes, two interpolated quantiles by counting ranks, its largest magnitude on both sides, or the given bounds; without extent it is widened by a billionth of its magnitude or 10^-12 |
| LegendMeaning.SymmetricCentred | dotnet/Xvarna.Native/ProductExperience.cs:363-367 | in symmetric mode minimum is minus maximum, every value is covered, one touches an end unless all are zero, and zero is normalised to one half |
| LegendMeaning.FinitesConcat | dotnet/Xvarna.Native/ProductExperience.cs:299 | the finite values are the inputs without the others, in input order |
| LegendMeaning.NormalizedShare | dotnet/Xvarna.Native/ProductExperience.cs:337-340 | inside the domain a normalised value is the share of the domain below the value, outside it is the nearer end |
| LegendMeaning.LegendMarksNonFinite | dotnet/Xvarna.Native/ProductExperience.cs:328-334 | non-finite inputs stay not-a-number and transparent, all others are opaque |
| Legend.NormalizedOrder | dotnet/Xvarna.Native/ProductExperience.cs:337-340 | normalised values lie in [0, 1], never reverse order, and keep it strictly inside the domain |
| Legend.MapMonotone | dotnet/Xvarna.Native/ProductExperience.cs:378-404 | a colour band whose anchors rise never falls as the value grows |
| Legend.RisingBands | dotnet/Xvarna.Native/ProductExperience.cs:271-280 | green rises along Viridis, red and green along Cividis |
| Legend.MapHitsAnchors | dotnet/Xvarna.Native/ProductExperience.cs:378-401 | at an anchor position the map returns exactly the anchor colour |
| LegendMeaning.ChannelNearest | dotnet/Xvarna.Native/ProductExperience.cs:403-404 | a channel is the whole number nearest to the straight line, the upper one at equal distance |
| LegendMeaning.MapFollowsAnchors | dotnet/Xvarna.Native/ProductExperience.cs:378-401 | between any two neighbouring anchors every band stays within half a level of the straight line between them |
| LegendMeaning.DivergingSides | dotnet/Xvarna.Native/ProductExperience.cs:281-284 | the diverging palette leans to blue below the middle, to red above it, and is grey there |
| Legend.Build | dotnet/Xvarna.Native/ProductExperience.cs:287-357 | fails exactly for the listed reasons in their order; otherwise domain, per-value results, clip counts, non-finite count and ticks are as specified |
| LegendMeaning.BuiltIff | dotnet/Xvarna.Native/ProductExperience.cs:290-319 | a legend is built exactly for 2 to 64 ticks, increasing percentiles in the unit interval, at least one finite value, a defined mode and palette, and increasing finite bounds in fixed mode |
| LegendMeaning.RejectionMeans | dotnet/Xvarna.Native/ProductExperience.cs:290-319 | which error a caller gets, by the first condition that fails |
| Legend.MapValues | dotnet/Xvarna.Native/ProductExperience.cs:322-342 | the loop yields one normalised value and colour per input in input order, and exact counts |
| Legend.LegendKeepsOrder | dotnet/Xvarna.Native/ProductExperience.cs:326-342 | larger inputs never get smaller normalised values; distinct ones inside the domain stay distinct |
| Legend.LegendColoursKeepOrder | dotnet/Xvarna.Native/ProductExperience.cs:326-342 | larger inputs never get a lower level on a rising band |
| Legend.ClipCounts | dotnet/Xvarna.Native/ProductExperience.cs:304-339 | nothing is clipped in full-range and symmetric mode; in percentile mode at most ceil(lo(n-1)) low and n-1-floor(hi(n-1)) high |
| Legend.TicksSpan | dotnet/Xvarna.Native/ProductExperience.cs:343-345 | ticks run from minimum to maximum in equal rising steps |
| Parity.AbsorbDelta | crates/xvarna-cli/src/advanced.rs:352-363 | the new maximum covers a tolerance exactly when the old one does and all metrics are within it |
| Parity.CloseIff | crates/xvarna-cli/src/advanced.rs:352-363 | finite metrics are close exactly if their difference is within the tolerance on either side, others exactly if equal |
| Parity.CompareRows | crates/xvarna-cli/src/advanced.rs:282-343 | identity mismatches are counted exactly and the maximum is the least covering tolerance |
| Parity.MismatchesCount | crates/xvarna-cli/src/advanced.rs:282-343 | the mismatches are the positions at which identities differ |
| Parity.CompareTargetView | crates/xvarna-cli/src/advanced.rs:271-350 | passes exactly when tolerance is non-negative, lengths and identities match and all metrics are close; exact mismatch count, least covering delta, hash flag |
| Parity.CompareViewCorridors | crates/xvarna-cli/src/advanced.rs:580-645 | the same for view corridors |
| Parity.CompareObserverPaths | crates/xvarna-cli/src/advanced.rs:869-937 | the same for observer paths |
| Parity.ParitySymmetric | crates/xvarna-cli/src/advanced.rs:271-363 | parity does not depend on which result is the reference |
| Parity.ParityMonotone | crates/xvarna-cli/src/advanced.rs:271-363 | a looser tolerance accepts what a stricter one does |
| Parity.TargetViewChain | crates/xvarna-cli/src/advanced.rs:271-350 | tolerances add along a chain of three target-view results |
| Parity.ViewCorridorsChain | crates/xvarna-cli/src/advanced.rs:580-645 | tolerances add along a chain of three corridor results |
| Parity.ObserverPathsChain | crates/xvarna-cli/src/advanced.rs:869-937 | tolerances add along a chain of three path results |
| Parity.ParityReflexive | crates/xvarna-cli/src/advanced.rs:271-363 | every result, with any non-finite metrics, passes against itself |
| Parity.TargetViewExact | crates/xvarna-cli/src/advanced.rs:282-343 | at zero tolerance parity is equality of every field of every row |
| Parity.ViewCorridorsExact | crates/xvarna-cli/src/advanced.rs:591-638 | at zero tolerance parity is equality of the summaries and of every sample field but aperture point and direction |
| Parity.ObserverPathsExact | crates/xvarna-cli/src/advanced.rs:880-930 | at zero tolerance parity is equality of the summaries and of every sample field but position and forward direction |
| Parity.MovedAperturePasses | crates/xvarna-cli/src/advanced.rs:618-638 | two corridor results with different aperture points and directions pass at zero tolerance |
| Parity.MovedCameraPasses | crates/xvarna-cli/src/advanced.rs:907-930 | two path results with different positions and directions pass at zero tolerance |
| StudyBatch.ConcatRowMajor | dotnet/Xvarna.Native/Study.cs:312-313 | in the concatenation component j of row i sits at i*m+j and nothing else is there |
| StudyBatch.AskInvertsLayout | dotnet/Xvarna.Native/Study.cs:290-297 | candidate i receives exactly row i of the native table, whatever spare buffer follows |
| StudyBatch.AnsweredIff | dotnet/Xvarna.Native/Study.cs:305-316 | a batch of distinct candidates is accepted exactly with one well-dimensioned evaluation per candidate |
| StudyBatch.RefusalMeans | dotnet/Xvarna.Native/Study.cs:301-316 | which refusal a caller gets, by the first violated condition on identifier sets, counts and dimensions |
| StudyBatch.SubmissionAligned | dotnet/Xvarna.Native/Study.cs:307-313 | row i of every submitted array is candidate i's own evaluation |
| StudyBatch.TellOrderIrrelevant | dotnet/Xvarna.Native/Study.cs:305-316 | any permutation of the evaluations gives the same refusal or the same arrays |
| StudyBatch.FlattenAligned | dotnet/Xvarna.Native/Study.cs:399-422 | flattened tables are row-major and aligned with the candidates, generations included |
| StudyBatch.FlattenedIff | dotnet/Xvarna.Native/Study.cs:399-422 | tables are produced exactly for a proper problem and at least one candidate, each with its one well-dimensioned evaluation and no others |
| StudyBatch.FlattenOrderIrrelevant | dotnet/Xvarna.Native/Study.cs:399-422 | the result does not depend on the evaluation order |
| StudyBoundary.NativeReceivesEvaluations | crates/xvarna-ffi/src/study.rs:645-659 | the native side reads back exactly the caller's evaluations, in batch order |
| StudyBoundary.AskDelivers | crates/xvarna-ffi/src/study.rs:557-579 | a batch that fits the buffers is received exactly as the optimizer produced it |
| StudyBoundary.AskDeliversIff | dotnet/Xvarna.Native/Study.cs:274-298 | a batch arrives, as produced, exactly if the object is live, it fits the buffers in the right width and the layouts agree; otherwise the error names the reason |
| StudyBoundary.CountsWithinBuffers | crates/xvarna-ffi/src/study.rs:664-691 | the counts the native side reports never exceed the caller's buffers |
| StudyBoundary.FailedTellKeepsBatch | dotnet/Xvarna.Native/Study.cs:301-356 | a call that throws leaves the pending batch as it was, one that returns closes it, and no count overflows |
| StudyBoundary.SnapshotIsAnswer | dotnet/Xvarna.Native/Study.cs:332-355 | a successful call returns exactly the optimizer's solutions, archive, counters, mean crowding and hash, with one front more than the largest rank |
| StudyBoundary.AnswerArrivesIff | dotnet/Xvarna.Native/Study.cs:317-356 | an accepted batch is answered exactly if the optimizer accepts it, its answer fits the buffers and the layouts agree; otherwise the error names the reason |
| StudyBoundary.ParetoIdsExact | dotnet/Xvarna.Native/Study.cs:350 | the listed front is exactly the feasible rank-zero solutions, ascending |
| StudyBoundary.ToldOrderIrrelevant | dotnet/Xvarna.Native/Study.cs:301-356 | any permutation of the evaluations gives the same answer and the same pending batch |
| StudyBoundary.Optimizer.Ask | dotnet/Xvarna.Native/Study.cs:274-298 | the pending batch becomes what was asked, or stays unchanged on any error |
| StudyBoundary.Optimizer.Tell | dotnet/Xvarna.Native/Study.cs:301-356 | answer and new pending batch are as specified; failure keeps the batch, success closes it |
| StudyProtocol.BatchesStayInSync | crates/xvarna-study/src/lib.rs:858-889 | over every run the managed object and the optimizer hold the same pending batch, of candidates their variables allow |
| StudyProtocol.AcceptedBinds | crates/xvarna-study/src/lib.rs:258-304 | a batch the managed side accepts binds natively exactly if its values are finite |
| StudyProtocol.TellTogether | crates/xvarna-study/src/lib.rs:871-889 | a call succeeds on both sides or on neither |
| StudyVariables.VariableAcceptedIff | crates/xvarna-study/src/lib.rs:52-78 | a variable is accepted exactly if its bounds are two increasing values it allows, a categorical one from zero with at most 2^32 levels |
| StudyVariables.CanonicalAllowed | crates/xvarna-study/src/lib.rs:45-86 | canonical values are allowed by validation, and a value is canonical already exactly if it is allowed |
| StudyVariables.CanonicalNearest | crates/xvarna-study/src/lib.rs:80-86 | a canonical value is a nearest allowed one, the one further from zero when two are equally near |
| StudyVariables.CanonicalMonotone | crates/xvarna-study/src/lib.rs:80-86 | making values canonical never reverses their order |
| StudyVariables.AllowedReachable | crates/xvarna-study/src/lib.rs:80-86 | every allowed value is its own canonical form and, for a categorical variable, its own level |
| StudyVariables.ProposedAllowed | crates/xvarna-study/src/lib.rs:940-1070 | a candidate whose values are inherited, made canonical or drawn as levels is allowed |
| StudyProtocol.GeneratedAllowed | crates/xvarna-study/src/lib.rs:943-985 | validation never rejects a candidate the optimizer generates |
| StudyProtocol.TellSucceedsIff | dotnet/Xvarna.Native/Study.cs:301-356 | at any point of any run a call succeeds exactly if the object is live and every pending candidate has its one well-dimensioned, finite evaluation and there are no others |
| StudyProgress.CountersCount | crates/xvarna-study/src/lib.rs:858-889 | over every run the generation counts the batches answered, the evaluation count the evaluations accepted, and identifiers are never handed out twice; a successful call returns both counts with its own batch included |
| StudyProgress.AskedBatch | crates/xvarna-study/src/lib.rs:858-868 | at any point of any run a batch can be asked exactly if the object is live and none is open; it has the population's size until a batch is answered and the offspring's afterwards, gapless identifiers and the current generation |
| ResultPairing.ScheduledComponent.SolveInstance | dotnet/Xvarna.Grasshopper/ScheduledAnalysisComponent.cs:56-142 | one phase of one iteration: tasks, executions, stored results and emissions are as specified, and over a solve as SolveAnswers says |
| ResultPairing.AnalysisResultCache.TryGet | dotnet/Xvarna.Grasshopper/AnalysisResultCache.cs:9 | the answer is the last entry stored for the iteration, whatever was stored for others, and none exactly if there was none |
| ResultPairing.LatestUnique | dotnet/Xvarna.Grasshopper/AnalysisResultCache.cs:9-11 | the history of stores determines that answer |
| ResultPairing.AnalysisResultCache.Store | dotnet/Xvarna.Grasshopper/AnalysisResultCache.cs:10-11 | one entry joins the history and replaces that of its iteration only |
| ResultPairing.QueuedTasks | dotnet/Xvarna.Grasshopper/ScheduledAnalysisComponent.cs:85-97 | the first phase queues in order one task per iteration that needs a run, and leaves results alone |
| ResultPairing.EveryEmissionPaired | dotnet/Xvarna.Grasshopper/ScheduledAnalysisComponent.cs:56-142 | over all solves with an in-order host every emitted result, fresh or retained, was produced by the emitted work in that iteration |
| SolveOutcomes.SolveAnswers | dotnet/Xvarna.Grasshopper/ScheduledAnalysisComponent.cs:56-142 | a solve with an in-order host emits, in iteration order and once each, exactly the answers of its iterations: the stored result while waiting, what the run produced, or the retained stored result after a run that was cancelled, failed or returned nothing; exactly the iterations whose run produced have a new result stored |
| SolveOutcomes.RetainedIsShown | dotnet/Xvarna.Grasshopper/ScheduledAnalysisComponent.cs:107-137 | an iteration that ran without a result shows its stored one if the quality retains it |
| ResultPairing.ByIterationPairsIff | dotnet/Xvarna.Grasshopper/ScheduledAnalysisComponent.cs:86-106 | with a host that indexes tasks by iteration number pairing survives if and only if no running iteration finds another iteration's producing task under its number |
| ResultPairing.GapsMispair | dotnet/Xvarna.Grasshopper/ScheduledAnalysisComponent.cs:86-106 | that cannot happen when every running iteration numbered below the queue length is preceded by running ones only, and does happen otherwise when tasks produce |
| ResultPairing.StoredResultMakesGap | dotnet/Xvarna.Grasshopper/ScheduledAnalysisComponent.cs:65-69 | a stored manual result before two iterations without one is such a gap |
| ResultPairing.StartsExactlyWhatRuns | dotnet/Xvarna.Grasshopper/ScheduledAnalysisComponent.cs:65-106 | a solve starts an execution for exactly the iterations with valid input that are not waiting for a manual run, once each with an in-order host |
| ResultPairing.ManualResultStands | dotnet/Xvarna.Grasshopper/ScheduledAnalysisComponent.cs:65-84 | in manual mode a stored result stands, and its iteration is not executed, through any number of solves until the run generation changes |

## Left out

- File system errors, lock poisoning, missing directories and sub-directories: file operations succeed on a flat map. Under concurrency the writing and renaming of an entry is one step, so two threads sharing a temporary name are not interleaved within it.
- Saturation of the 64-bit byte counters, statistics and access clock: counters are unbounded; only the saturating subtractions that the code performs are modelled.
- `write_count` and `last_event` of the cache: diagnostics that nothing reads back.
- Collisions of the hash function: it is a parameter, so two byte streams may share a digest; every claim is about streams, keys and entry bytes.
- Reopening one directory under another configuration: a run has one configuration.
- CacheInterleaving.EveryInterleavingSafe: disk statistics are not claimed to be the true inventory under concurrency, because refreshes of different threads overtake each other.
- `Configure` while jobs are alive, queue-time averages, argument checks of `Schedule`, checked generation overflow, early disposal of a job's token source and progress snapshots: the policy is fixed and the remaining values do not steer the protocol.
- SchedulerRuns.RunsDrain: fairness is not modelled; the claim bounds advances and characterises runs that cannot advance, under terminating operations.
- Rounding, overflow and fused operations of double arithmetic in the radical inverse, legend, parity and design variables: exact reals stand for finite doubles.
- The square root in the benchmark diagonal: the length is a parameter of at least one.
- `ScaleSamples`, the single-colour lookup of the legend, quality presets, convergence statements, throughput rates and `parity_acceptance`: single expressions.
- Null arguments of the managed interfaces.
- The evolutionary search itself: which values are drawn or inherited, who survives, ranking and archive content are inputs of StudyProtocol, bounded as the optimizer bounds them.
- StudyProtocol.BatchesStayInSync: both sides agree on structure layouts, as builds of one version do.
- Whole-result fields that no comparison reads (target identifier list, samples per corridor, execution summary).
- ResultPairing.ScheduledComponent.SolveInstance: messages, preview clearing, records, work estimates and debounce are not modelled; inputs and quality are the same in both phases of a solve, and an execution's end is an input.
- Native interop, unit conversion, command-line parsing, diagnostic bundles, document registry and user-interface code.
