/** What each operation leaves behind, said without its function: what is resident and how
    recently used, which files stay, and which counter moves. */
module CacheEffects {
  import opened Wrappers
  import opened ByteStrings
  import opened KeyCodec
  import opened EntryCodec
  import opened MemoryTier
  import opened DiskTier
  import opened Cache
  import opened CacheRuns
  import opened CacheLookups

  // ---- The memory tier ----

  /** `key` is resident with `payload` and was used after every other entry. */
  predicate NewestResident(entries: Entries, key: CacheKey, payload: Bytes) {
    && key in entries && entries[key].payload == payload
    && forall k :: k in entries && k != key ==> entries[k].lastAccess < entries[key].lastAccess
  }

  /** `evicted` is the shortest least-recently-used prefix whose removal lets `need` bytes fit. */
  ghost predicate ShortestPrefix(entries: Entries, evicted: set<CacheKey>, need: nat, budget: nat) {
    && LruPrefix(entries, evicted) && Resident(entries - evicted) + need <= budget
    && forall other :: LruPrefix(entries, other) && Resident(entries - other) + need <= budget ==> evicted <= other
  }

  /** The other keys that are no longer resident. */
  function Displaced(s: Entries, t: Entries, key: CacheKey): set<CacheKey> {
    s.Keys - {key} - t.Keys
  }

  /** The payload went in as the newest entry; of the rest only a shortest prefix left. */
  ghost predicate LinkedIn(budget: nat, s: Entries, t: Entries, key: CacheKey, payload: Bytes) {
    && NewestResident(t, key, payload)
    && t - {key} == s - {key} - Displaced(s, t, key)
    && ShortestPrefix(s - {key}, Displaced(s, t, key), |payload|, budget)
  }

  lemma InsertLinks(budget: nat, s: State, key: CacheKey, payload: Bytes)
    requires MemoryOk(budget, s) && Fits(budget, payload)
    ensures var t := InsertMemory(budget, s, key, payload);
      && LinkedIn(budget, s.entries, t.entries, key, payload)
      && t.stats.evictions == s.stats.evictions + |Displaced(s.entries, t.entries, key)|
  {
    hide MemoryOk, Accounted, EvictToFit, InsertMemory, ShortestPrefix, Displaced, NewestResident, RoomFor;
    RoomIsShortest(budget, s, key, payload);
    InsertedState(budget, s, key, payload);
    InsertedNewest(budget, s, key, payload);
    RoomForOk(budget, s, key, payload);
    var t := InsertMemory(budget, s, key, payload);
    LinkedKeys(s.entries, RoomFor(budget, s, key, payload).entries, t.entries, key);
  }

  lemma LinkedKeys(s: Entries, room: Entries, t: Entries, key: CacheKey)
    requires room.Keys <= s.Keys && key !in room && key in t && t == room[key := t[key]]
    ensures t - {key} == room && Displaced(s, t, key) == s.Keys - {key} - room.Keys
  {
  }

  /** What stays before the new entry is linked in. */
  lemma RoomIsShortest(budget: nat, s: State, key: CacheKey, payload: Bytes)
    requires MemoryOk(budget, s) && Fits(budget, payload)
    ensures var room := RoomFor(budget, s, key, payload);
      var gone := s.entries.Keys - {key} - room.entries.Keys;
      && room.entries == s.entries - {key} - gone
      && ShortestPrefix(s.entries - {key}, gone, |payload|, budget)
      && room.stats.evictions == s.stats.evictions + |gone|
  {
    hide MemoryOk, Accounted, EvictToFit, ShortestPrefix, OnlyEvicted;
    var cleared := if key in s.entries then Forget(s, key) else s;
    ClearedAccounted(budget, s, key);
    EvictToFitAccounted(cleared, |payload|, budget);
    EvictsShortest(cleared, |payload|, budget);
    EvictionCount(cleared, RoomFor(budget, s, key, payload));
    assert (s.entries - {key}).Keys == s.entries.Keys - {key};
  }

  /** A payload that memory cannot hold at all changes nothing. */
  ghost predicate Inserted(budget: nat, s: Entries, t: Entries, key: CacheKey, payload: Bytes) {
    if Fits(budget, payload) then LinkedIn(budget, s, t, key, payload) else t == s
  }

  lemma InsertEffect(budget: nat, s: State, key: CacheKey, payload: Bytes)
    requires MemoryOk(budget, s)
    ensures var t := InsertMemory(budget, s, key, payload);
      && Inserted(budget, s.entries, t.entries, key, payload)
      && t.stats.evictions == s.stats.evictions + |Displaced(s.entries, t.entries, key)|
      && Moved(s.stats, t.stats, Moves(0, 0, 0, 0))
  {
    hide MemoryOk, InsertMemory, LinkedIn;
    InsertMemoryOk(budget, s, key, payload);
    if Fits(budget, payload) {
      InsertLinks(budget, s, key, payload);
    } else {
      assert Displaced(s.entries, s.entries, key) == {};
    }
  }

  lemma ClearedAccounted(budget: nat, s: State, key: CacheKey)
    requires MemoryOk(budget, s)
    ensures var cleared := if key in s.entries then Forget(s, key) else s;
      Accounted(cleared) && cleared.entries == s.entries - {key} && cleared.stats == s.stats
  {
    if key in s.entries { ForgetAccounted(s, key); } else { assert s.entries - {key} == s.entries; }
  }

  lemma EvictionCount(s: State, t: State)
    requires OnlyEvicted(s, t)
    ensures t.stats.evictions == s.stats.evictions + |s.entries.Keys - t.entries.Keys|
  {
    assert s.entries.Keys == t.entries.Keys + (s.entries.Keys - t.entries.Keys);
  }

  lemma EvictsShortest(s: State, need: nat, budget: nat)
    requires Accounted(s) && need <= budget
    ensures ShortestPrefix(s.entries, MemoryTier.Evicted(s, need, budget), need, budget)
    ensures EvictToFit(s, need, budget).entries == s.entries - MemoryTier.Evicted(s, need, budget)
  {
    hide Accounted, EvictToFit, LruPrefix, Resident, MemoryTier.Evicted;
    EvictsLruPrefix(s, need, budget);
    forall other | LruPrefix(s.entries, other) && Resident(s.entries - other) + need <= budget
      ensures MemoryTier.Evicted(s, need, budget) <= other
    {
      EvictsNoMore(s, need, budget, other);
    }
  }

  lemma InsertedNewest(budget: nat, s: State, key: CacheKey, payload: Bytes)
    requires MemoryOk(budget, s) && Fits(budget, payload)
    ensures NewestResident(InsertMemory(budget, s, key, payload).entries, key, payload)
  {
    hide InsertMemory, Resident;
    InsertMemoryOk(budget, s, key, payload);
  }

  // ---- Lookups ----

  /** By how much each lookup counter moved. */
  datatype Moves = Moves(memoryHits: nat, diskHits: nat, misses: nat, corruptions: nat)

  predicate Moved(before: Stats, after: Stats, moves: Moves) {
    && after.memoryHits == before.memoryHits + moves.memoryHits
    && after.diskHits == before.diskHits + moves.diskHits
    && after.misses == before.misses + moves.misses
    && after.corruptions == before.corruptions + moves.corruptions
  }

  /** A resident key is a memory hit and becomes the newest; nothing else changes. */
  lemma MemoryHitEffect(config: Config, hash: Hasher, s: Cache.Store, key: CacheKey)
    requires MemoryOk(config.memoryBudget, s.mem) && key in s.mem.entries
    ensures var r := Get(config, hash, s, key);
      && r.hit == Some(Hit(s.mem.entries[key].payload, Memory))
      && NewestResident(r.store.mem.entries, key, s.mem.entries[key].payload)
      && r.store.mem.entries - {key} == s.mem.entries - {key}
      && r.store.files == s.files
      && r.store.mem.stats == s.mem.stats.(memoryHits := s.mem.stats.memoryHits + 1)
      && r.store.mem.accessClock == s.mem.accessClock + 1
  {
    hide Resident;
  }

  /** A key that only the disk has is a disk hit: one counter moves, no file changes, and a
      payload that fits is linked into memory. */
  lemma DiskHitEffect(config: Config, hash: Hasher, s: Cache.Store, key: CacheKey)
    requires MemoryOk(config.memoryBudget, s.mem)
    requires key !in s.mem.entries && OnDisk(config, hash, s.files, key).Some?
    ensures var payload := OnDisk(config, hash, s.files, key).value;
      var r := Get(config, hash, s, key);
      && r.hit == Some(Hit(payload, Disk)) && r.store.files == s.files
      && Moved(s.mem.stats, r.store.mem.stats, Moves(0, 1, 0, 0))
      && Inserted(config.memoryBudget, s.mem.entries, r.store.mem.entries, key, payload)
      && r.store.mem.stats.evictions
         == s.mem.stats.evictions + |Displaced(s.mem.entries, r.store.mem.entries, key)|
  {
    hide MemoryOk, InsertMemory, Inserted;
    TouchOk(config.memoryBudget, s.mem, key);
    DiskHitOk(config.memoryBudget, Touch(s.mem, key));
    InsertEffect(config.memoryBudget, DiskHit(Touch(s.mem, key)), key, OnDisk(config, hash, s.files, key).value);
  }

  /** What neither tier can serve is a miss; only a file of that name that is no entry of the
      key goes, and it counts as corrupt. */
  lemma MissEffect(config: Config, hash: Hasher, s: Cache.Store, key: CacheKey)
    requires key !in s.mem.entries && OnDisk(config, hash, s.files, key).None?
    ensures var r := Get(config, hash, s, key);
      && r.hit == None && r.store.mem.entries == s.mem.entries
      && r.store.files == (if FindsCorrupt(config, hash, s, key) then s.files - {EntryName(key)} else s.files)
      && Moved(s.mem.stats, r.store.mem.stats,
               Moves(0, 0, 1, if FindsCorrupt(config, hash, s, key) then 1 else 0))
      && r.store.mem.stats.evictions == s.mem.stats.evictions
      && r.store.mem.accessClock == s.mem.accessClock + 1
  {
  }

  /** After a lookup that hits, a payload that memory can hold at all is resident and newest, so the
      next lookup of the key is a memory hit; a lookup that misses leaves memory as it was. */
  lemma HitMakesResident(config: Config, hash: Hasher, s: Cache.Store, key: CacheKey)
    requires MemoryOk(config.memoryBudget, s.mem)
    ensures var r := Get(config, hash, s, key);
      && (r.hit.Some? && Fits(config.memoryBudget, r.hit.value.payload)
          ==> && NewestResident(r.store.mem.entries, key, r.hit.value.payload)
              && Get(config, hash, r.store, key).hit == Some(Hit(r.hit.value.payload, Memory)))
      && (r.hit.None? ==> r.store.mem.entries == s.mem.entries)
      && (r.hit.Some? && r.hit.value.tier == Memory <==> key in s.mem.entries)
  {
    hide MemoryOk, InsertMemory, ShortestPrefix;
    GetMemoryOk(config, hash, s, key);
    var r := Get(config, hash, s, key);
    if key in s.mem.entries {
      MemoryHitEffect(config, hash, s, key);
    } else if OnDisk(config, hash, s.files, key).Some? {
      DiskHitEffect(config, hash, s, key);
    } else {
      MissEffect(config, hash, s, key);
    }
    hide Get, OnDisk;
    if r.hit.Some? && Fits(config.memoryBudget, r.hit.value.payload) {
      MemoryHitEffect(config, hash, r.store, key);
    }
  }

  // ---- Stores ----

  /** The directory lost a minimal oldest-first set of entries, or nothing without a disk tier. */
  ghost predicate Trimmed(config: Config, files: Files, after: Files) {
    && after == files - (files.Keys - after.Keys)
    && (if config.diskBudget == 0 then after == files
        else OldestFirstEviction(files, files.Keys - after.Keys, config.diskBudget))
  }

  lemma EvictDiskTrims(config: Config, files: Files, listing: seq<string>)
    requires IsListing(files, listing)
    ensures var r := EvictDisk(files, listing, config.diskBudget);
      && Trimmed(config, files, r.files)
      && r.count == |files.Keys - r.files.Keys|
  {
    hide IsListing, OldestFirstEviction, RemoveToFit, OldestFirst, ListedTotal;
    if config.diskBudget > 0 {
      hide EvictDisk;
      EvictDiskMinimal(files, listing, config.diskBudget);
    } else {
      assert files.Keys - files.Keys == {};
    }
  }

  lemma EvictionEffect(config: Config, s: Cache.Store, listing: seq<string>)
    requires IsListing(s.files, listing)
    ensures var t := EvictedToBudget(config, s, listing);
      && Trimmed(config, s.files, t.files)
      && t.mem.(stats := s.mem.stats) == s.mem
      && Moved(s.mem.stats, t.mem.stats, Moves(0, 0, 0, 0))
      && t.mem.stats.evictions == s.mem.stats.evictions + |s.files.Keys - t.files.Keys|
  {
    hide EvictDisk, IsListing, Trimmed, DiskTotal, DiskCount;
    EvictDiskTrims(config, s.files, listing);
    if config.diskBudget == 0 {
      assert s.files.Keys - s.files.Keys == {};
      NothingTrimmed(config, s.files);
    }
  }

  lemma NothingTrimmed(config: Config, files: Files)
    requires config.diskBudget == 0
    ensures Trimmed(config, files, files)
  {
    assert files.Keys - files.Keys == {};
  }

  /** The file a store writes, and that no other file but the temporary one differs. */
  ghost predicate FileInPlace(config: Config, hash: Hasher, files: Files, after: Files, key: CacheKey,
                              payload: Bytes, now: Moment) {
    && EntryName(key) in after
    && after[EntryName(key)].modified == now.time
    && DecodeEntry(hash, key, after[EntryName(key)].bytes) == Some(payload)
    && TemporaryName(key, now.process) !in after
    && forall name :: name != EntryName(key) && name != TemporaryName(key, now.process)
         ==> (name in after <==> name in files) && (name in files ==> after[name] == files[name])
  }

  lemma WrittenInPlace(config: Config, hash: Hasher, files: Files, key: CacheKey, payload: Bytes, now: Moment)
    requires |payload| < U64_LIMIT && config.diskBudget > 0
    ensures FileInPlace(config, hash, files, Written(config, hash, files, key, payload, now), key, payload, now)
  {
    EntryNameFaithful(key, key);
    TemporaryIsForeign(key, now.process);
    EntryExact(hash, key, Encoded(hash, key, payload), payload);
  }

  /** After a store: a payload that memory can hold at all is linked in as the newest entry, the
      file is in place with the host's time, and the directory lost a minimal oldest-first set
      of entries. The eviction counter grew by every entry that left either tier. */
  lemma StoreEffect(config: Config, hash: Hasher, s: Cache.Store, key: CacheKey, payload: Bytes, now: Moment, listing: seq<string>)
    returns (files: Files)
    requires MemoryOk(config.memoryBudget, s.mem) && |payload| < U64_LIMIT
    requires IsListing(Written(config, hash, s.files, key, payload, now), listing)
    ensures var t := Put(config, hash, s, key, payload, now, listing);
      && Inserted(config.memoryBudget, s.mem.entries, t.mem.entries, key, payload)
      && (if config.diskBudget > 0 then FileInPlace(config, hash, s.files, files, key, payload, now)
          else files == s.files)
      && Trimmed(config, files, t.files)
      && Moved(s.mem.stats, t.mem.stats, Moves(0, 0, 0, 0))
      && t.mem.stats.evictions == s.mem.stats.evictions
           + |Displaced(s.mem.entries, t.mem.entries, key)| + |files.Keys - t.files.Keys|
  {
    hide MemoryOk, InsertMemory, Inserted, EvictedToBudget, IsListing, FileInPlace, Trimmed, DiskTotal, DiskCount, Displaced;
    files := Written(config, hash, s.files, key, payload, now);
    if config.diskBudget > 0 { WrittenInPlace(config, hash, s.files, key, payload, now); }
    assert config.diskBudget == 0 ==> files == s.files;
    hide Written;
    InsertEffect(config.memoryBudget, s.mem, key, payload);
    var mem := InsertMemory(config.memoryBudget, s.mem, key, payload);
    assert Put(config, hash, s, key, payload, now, listing)
        == EvictedToBudget(config, Cache.Store(Inventoried(mem, files), files), listing);
    hide Put;
    EvictionEffect(config, Cache.Store(Inventoried(mem, files), files), listing);
  }

  /** So what was just stored is served from memory, or from disk while its file lasts. */
  lemma StoredIsServed(config: Config, hash: Hasher, s: Cache.Store, key: CacheKey, payload: Bytes, now: Moment, listing: seq<string>)
    requires MemoryOk(config.memoryBudget, s.mem) && |payload| < U64_LIMIT
    requires IsListing(Written(config, hash, s.files, key, payload, now), listing)
    ensures var t := Put(config, hash, s, key, payload, now, listing);
      var hit := Get(config, hash, t, key).hit;
      && (Fits(config.memoryBudget, payload) ==> hit == Some(Hit(payload, Memory)))
      && (key !in t.mem.entries ==>
            hit == if config.diskBudget > 0 && EntryName(key) in t.files then Some(Hit(payload, Disk)) else None)
  {
    hide MemoryOk, InsertMemory, EvictedToBudget, IsListing, Put, Get, ShortestPrefix, OldestFirstEviction, DecodeEntry, Written;
    var files := StoreEffect(config, hash, s, key, payload, now, listing);
    var t := Put(config, hash, s, key, payload, now, listing);
    PutMemoryOk(config, hash, s, key, payload, now, listing);
    if key in t.mem.entries {
      MemoryHitEffect(config, hash, t, key);
    } else if OnDisk(config, hash, t.files, key).Some? {
      DiskHitEffect(config, hash, t, key);
    } else {
      MissEffect(config, hash, t, key);
    }
  }

  lemma PutMemoryOk(config: Config, hash: Hasher, s: Cache.Store, key: CacheKey, payload: Bytes, now: Moment, listing: seq<string>)
    requires MemoryOk(config.memoryBudget, s.mem)
    ensures MemoryOk(config.memoryBudget, Put(config, hash, s, key, payload, now, listing).mem)
  {
    hide MemoryOk, Put;
    MemoryStepOk(config, hash, s, CacheRuns.Store(key, payload, now, listing));
  }

  // ---- Opening, recovery and clearing ----

  /** Opening a directory: nothing resident, all counters zero but the evictions made. */
  lemma OpenEffect(config: Config, files: Files, listing: seq<string>)
    requires IsListing(files, listing)
    ensures var t := Open(config, files, listing);
      && t.mem.entries == map[] && t.mem.memoryBytes == 0 && t.mem.accessClock == 0
      && Trimmed(config, files, t.files)
      && Moved(FreshStats, t.mem.stats, Moves(0, 0, 0, 0))
      && t.mem.stats.evictions == |files.Keys - t.files.Keys|
  {
    hide EvictedToBudget, IsListing, Trimmed, DiskTotal, DiskCount;
    EvictionEffect(config, Cache.Store(Inventoried(FreshState, files), files), listing);
  }

  /** Recovery and clearing take keys out of both tiers and touch no other key, and no file
      that is not an entry; only a recovery counts a corruption. */
  lemma RemovalEffect(config: Config, hash: Hasher, s: Cache.Store, key: CacheKey)
    requires MemoryOk(config.memoryBudget, s.mem)
    ensures var t := RecoverCorrupt(s, key);
      && Get(config, hash, t, key).hit == None
      && t.mem.entries == s.mem.entries - {key} && t.files == s.files - {EntryName(key)}
      && Moved(s.mem.stats, t.mem.stats, Moves(0, 0, 0, 1)) && t.mem.stats.evictions == s.mem.stats.evictions
    ensures var t := Cleared(s);
      && Get(config, hash, t, key).hit == None
      && t.mem.entries == map[] && t.mem.accessClock == s.mem.accessClock
      && (forall name :: name in t.files <==> name in s.files && !HasXvcExtension(name))
      && (forall name :: name in t.files ==> t.files[name] == s.files[name])
      && Moved(s.mem.stats, t.mem.stats, Moves(0, 0, 0, 0)) && t.mem.stats.evictions == s.mem.stats.evictions
  {
    hide MemoryOk;
    RecoverOk(config.memoryBudget, s.mem, key);
    EntryNameFaithful(key, key);
  }
}
