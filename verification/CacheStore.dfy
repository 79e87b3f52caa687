/** The cache store as the program runs it: fields updated in place under the state lock,
    and a directory of files. Every method is tied to its function in `Cache`. */
module CacheStores {
  import opened Wrappers
  import opened ByteStrings
  import opened KeyCodec
  import opened EntryCodec
  import opened FiniteMaps
  import opened MemoryTier
  import opened DiskTier
  import opened Sorting
  import Cache

  lemma NoEntriesNoBytes(entries: Entries)
    ensures entries == map[] ==> Resident(entries) == 0
  {
    if entries == map[] { assert Sizes(entries) == map[]; }
  }

  lemma MemoryOkAccounted(budget: nat, s: State)
    requires MemoryOk(budget, s)
    ensures Accounted(s)
  {
  }

  class CacheStore {
    const config: Cache.Config
    const hash: Hasher
    var entries: Entries
    var memoryBytes: nat
    var accessClock: nat
    var stats: Stats
    var files: Files

    ghost function Mem(): State
      reads this
    {
      State(entries, memoryBytes, accessClock, stats)
    }

    ghost function View(): Cache.Store
      reads this
    {
      Cache.Store(Mem(), files)
    }

    ghost predicate Valid()
      reads this
    {
      MemoryOk(config.memoryBudget, Mem())
    }

    constructor (config: Cache.Config, hash: Hasher, directory: Files, listing: seq<string>)
      ensures this.config == config && this.hash == hash
      ensures Valid()
      ensures View() == Cache.Open(config, directory, listing)
    {
      this.config := config;
      this.hash := hash;
      entries := map[];
      memoryBytes := 0;
      accessClock := 0;
      stats := FreshStats;
      files := directory;
      new;
      EmptyOk(config.memoryBudget, Mem());
      RefreshDiskInventory();
      EvictDiskToBudget(listing);
    }

    method Get(key: CacheKey) returns (hit: Option<Cache.Hit>)
      requires Valid()
      modifies this
      ensures Valid()
      ensures Cache.Lookup(View(), hit) == Cache.Get(config, hash, old(View()), key)
    {
      var resident := TouchEntry(key);
      if resident.Some? {
        return Some(Cache.Hit(resident.value, Cache.Memory));
      }
      if config.diskBudget == 0 {
        RecordMiss();
        return None;
      }
      var path := EntryName(key);
      if path !in files {
        RecordMiss();
        return None;
      }
      var bytes := files[path].bytes;
      match DecodeEntry(hash, key, bytes) {
        case None =>
          files := files - {path};
          RecordCorrupt(|bytes|);
          hit := None;
        case Some(payload) =>
          RecordDiskHit();
          InsertMemory(key, payload);
          hit := Some(Cache.Hit(payload, Cache.Disk));
      }
    }

    /** The first locked section of a lookup. */
    method TouchEntry(key: CacheKey) returns (payload: Option<Bytes>)
      requires Valid()
      modifies `entries, `accessClock, `stats
      ensures Valid()
      ensures Mem() == Touch(old(Mem()), key)
      ensures payload == if key in old(entries) then Some(old(entries)[key].payload) else None
    {
      hide MemoryOk;
      TouchOk(config.memoryBudget, Mem(), key);
      accessClock := accessClock + 1;
      if key in entries {
        entries := entries[key := entries[key].(lastAccess := accessClock)];
        payload := Some(entries[key].payload);
        stats := stats.(memoryHits := stats.memoryHits + 1);
      } else {
        payload := None;
      }
      assert Mem() == Touch(old(Mem()), key);
    }

    method Put(key: CacheKey, payload: Bytes, now: Moment, listing: seq<string>)
      returns (result: Result<(), CacheError>)
      requires Valid()
      modifies this
      ensures Valid()
      ensures result.Success? <==> |payload| < U64_LIMIT
      ensures result.Failure? ==> View() == old(View())
      ensures View() == Cache.Put(config, hash, old(View()), key, payload, now, listing)
    {
      var encoded := EncodeEntry(hash, key, payload);
      if encoded.Failure? {
        return Failure(encoded.error);
      }
      if config.diskBudget > 0 {
        WriteEntry(key, encoded.value, now);
      }
      if config.memoryBudget > 0 {
        InsertMemory(key, payload);
      }
      RefreshDiskInventory();
      EvictDiskToBudget(listing);
      result := Success(());
    }

    /** Write the temporary file, clear the destination, rename. */
    method WriteEntry(key: CacheKey, encoded: Bytes, now: Moment)
      modifies `files
      ensures files == (old(files) - {TemporaryName(key, now.process)})[EntryName(key) := File(encoded, now.time)]
    {
      var destination, temporary := EntryName(key), TemporaryName(key, now.process);
      EntryNameFaithful(key, key);
      TemporaryIsForeign(key, now.process);
      files := files[temporary := File(encoded, now.time)];
      if destination in files {
        files := files - {destination};
      }
      files := (files - {temporary})[destination := files[temporary]];
      assert files == (old(files) - {temporary})[destination := File(encoded, now.time)];
    }

    method RecoverCorrupt(key: CacheKey)
      requires Valid()
      modifies this
      ensures Valid()
      ensures View() == Cache.RecoverCorrupt(old(View()), key)
    {
      hide MemoryOk;
      RecoverOk(config.memoryBudget, Mem(), key);
      files := files - {EntryName(key)};
      if key in entries {
        ForgetEntry(key);
      }
      stats := stats.(corruptions := stats.corruptions + 1,
                      memoryBytes := memoryBytes, memoryEntries := |entries|);
      assert Mem() == Recover(old(Mem()), key);
      RefreshDiskInventory();
    }

    method Clear()
      requires Valid()
      modifies this
      ensures Valid()
      ensures View() == Cache.Cleared(old(View()))
    {
      RemoveCacheFiles();
      entries := map[];
      memoryBytes := 0;
      stats := stats.(memoryBytes := 0, diskBytes := 0, memoryEntries := 0, diskEntries := 0);
      EmptyOk(config.memoryBudget, Mem());
    }

    /** Removes every cache entry of the directory and nothing else. */
    method RemoveCacheFiles()
      modifies `files
      ensures files == old(files) - CacheNames(old(files))
    {
      var pending := files.Keys;
      ghost var removed: set<string> := {};
      while pending != {}
        invariant removed == CacheNames(old(files)) - pending
        invariant pending <= old(files).Keys
        invariant files == old(files) - removed
        decreases |pending|
      {
        var path :| path in pending;
        if HasXvcExtension(path) {
          files := files - {path};
          removed := removed + {path};
        }
        pending := pending - {path};
      }
      assert removed == CacheNames(old(files));
    }

    /** The snapshot overrides both memory figures with the live ones. */
    method Snapshot() returns (snapshot: Stats)
      requires Valid()
      ensures snapshot == stats
      ensures snapshot.memoryBytes == Resident(entries) <= config.memoryBudget
      ensures snapshot.memoryEntries == |entries|
    {
      snapshot := stats.(memoryBytes := memoryBytes, memoryEntries := |entries|);
    }

    method RecordMiss()
      requires Valid()
      modifies `stats
      ensures Valid() && Mem() == Cache.Missed(old(Mem()))
    {
      stats := stats.(misses := stats.misses + 1);
    }

    method RecordCorrupt(size: nat)
      requires Valid()
      modifies `stats
      ensures Valid() && Mem() == Cache.DroppedCorrupt(old(Mem()), size)
    {
      stats := stats.(corruptions := stats.corruptions + 1,
                      misses := stats.misses + 1,
                      diskBytes := SaturatingSub(stats.diskBytes, size),
                      diskEntries := SaturatingSub(stats.diskEntries, 1));
    }

    method RecordDiskHit()
      requires Valid()
      modifies `stats
      ensures Valid() && Mem() == Cache.DiskHit(old(Mem()))
    {
      stats := stats.(diskHits := stats.diskHits + 1);
    }

    method RecordEvictions(count: nat)
      requires Valid()
      modifies `stats
      ensures Valid() && Mem() == Cache.AddEvictions(old(Mem()), count)
    {
      stats := stats.(evictions := stats.evictions + count);
    }

    method ForgetEntry(key: CacheKey)
      requires key in entries
      modifies `entries, `memoryBytes
      ensures Mem() == Forget(old(Mem()), key)
    {
      memoryBytes := SaturatingSub(memoryBytes, |entries[key].payload|);
      entries := entries - {key};
    }

    method InsertMemory(key: CacheKey, payload: Bytes)
      requires Valid()
      modifies `entries, `memoryBytes, `accessClock, `stats
      ensures Valid()
      ensures Mem() == MemoryTier.InsertMemory(config.memoryBudget, old(Mem()), key, payload)
    {
      hide MemoryOk, Accounted, EvictToFit, MemoryTier.Forget, Sizes, Resident, Stamped;
      InsertMemoryOk(config.memoryBudget, Mem(), key, payload);
      if config.memoryBudget == 0 || |payload| > config.memoryBudget {
        return;
      }
      MemoryOkAccounted(config.memoryBudget, Mem());
      InsertedState(config.memoryBudget, Mem(), key, payload);
      hide MemoryTier.InsertMemory;
      if key in entries {
        ForgetAccounted(Mem(), key);
        ForgetEntry(key);
      }
      MakeRoom(|payload|);
      accessClock := accessClock + 1;
      entries := entries[key := MemoryEntry(payload, accessClock)];
      memoryBytes := memoryBytes + |payload|;
      stats := stats.(memoryBytes := memoryBytes, memoryEntries := |entries|);
    }

    /** The eviction loop of an insertion. */
    method MakeRoom(need: nat)
      requires Accounted(Mem()) && need <= config.memoryBudget
      modifies `entries, `memoryBytes, `stats
      ensures Mem() == EvictToFit(old(Mem()), need, config.memoryBudget)
    {
      while memoryBytes + need > config.memoryBudget
        invariant Accounted(Mem())
        invariant EvictToFit(Mem(), need, config.memoryBudget)
               == EvictToFit(old(Mem()), need, config.memoryBudget)
        decreases |entries|
      {
        NoEntriesNoBytes(entries);
        if entries == map[] {
          assert false;  // the program's `break` here is never taken
        }
        EvictOldestAccounted(Mem());
        ghost var next := EvictOldest(Mem());
        var oldest := LeastRecentlyUsed();
        ForgetEntry(oldest);
        stats := stats.(evictions := stats.evictions + 1);
        assert Mem() == next;
      }
    }

    /** `min_by_key` over the entries; distinct stamps leave no choice. */
    method LeastRecentlyUsed() returns (oldest: CacheKey)
      requires entries != map[] && Accounted(Mem())
      ensures oldest == Oldest(entries)
      ensures IsOldest(entries, oldest)
    {
      var pending := entries.Keys;
      oldest :| oldest in pending;
      pending := pending - {oldest};
      while pending != {}
        invariant pending <= entries.Keys && oldest in entries
        invariant forall k :: k in entries && k !in pending
                              ==> entries[oldest].lastAccess <= entries[k].lastAccess
        decreases |pending|
      {
        var key :| key in pending;
        if entries[key].lastAccess < entries[oldest].lastAccess {
          oldest := key;
        }
        pending := pending - {key};
      }
    }

    method RefreshDiskInventory()
      requires Valid()
      modifies `stats
      ensures Valid()
      ensures Mem() == Cache.Inventoried(old(Mem()), files)
    {
      var bytes, count := Inventory();
      stats := stats.(diskBytes := bytes, diskEntries := count);
    }

    /** Total size and number of the cache entries in the directory. */
    method Inventory() returns (bytes: nat, count: nat)
      ensures bytes == DiskTotal(files)
      ensures count == DiskCount(files)
    {
      bytes, count := 0, 0;
      var pending := files.Keys;
      ghost var left := files;
      while pending != {}
        invariant left.Keys == pending <= files.Keys
        invariant forall name :: name in left ==> left[name] == files[name]
        invariant bytes + DiskTotal(left) == DiskTotal(files)
        invariant count + DiskCount(left) == DiskCount(files)
        decreases |pending|
      {
        var path :| path in pending;
        if HasXvcExtension(path) {
          DiskTotalSplit(left, path);
          bytes := bytes + |files[path].bytes|;
          count := count + 1;
        } else {
          assert CacheNames(left - {path}) == CacheNames(left);
          DiskTotalOther(left, left - {path});
        }
        pending := pending - {path};
        left := left - {path};
      }
      assert CacheSizes(left) == map[];
      assert CacheNames(left) == {};
    }

    method EvictDiskToBudget(listing: seq<string>)
      requires Valid()
      modifies `files, `stats
      ensures Valid()
      ensures View() == Cache.EvictedToBudget(config, old(View()), listing)
    {
      hide MemoryOk, RemoveToFit, CacheListing, ListedTotal;
      if config.diskBudget == 0 {
        return;
      }
      var found := ListCacheFiles(listing);
      var order := SortBy(found, ByAge(files));
      var total := TotalSize(order);
      var evicted := RemoveOldest(order, total);
      RefreshDiskInventory();
      if evicted > 0 {
        RecordEvictions(evicted);
      }
    }

    method ListCacheFiles(listing: seq<string>) returns (found: seq<string>)
      ensures found == CacheListing(files, listing)
    {
      found := [];
      for i := 0 to |listing|
        invariant found == CacheListing(files, listing[..i])
      {
        assert listing[..i + 1][..i] == listing[..i];
        if listing[i] in files && HasXvcExtension(listing[i]) {
          found := found + [listing[i]];
        }
      }
      assert listing[..|listing|] == listing;
    }

    method TotalSize(order: seq<string>) returns (total: nat)
      ensures total == ListedTotal(files, order)
    {
      total := 0;
      for i := 0 to |order|
        invariant total == ListedTotal(files, order[..i])
      {
        assert order[..i + 1][..i] == order[..i];
        total := total + SizeOf(files, order[i]);
      }
      assert order[..|order|] == order;
    }

    /** The removal loop: stops as soon as the running total is within budget. */
    method RemoveOldest(order: seq<string>, size: nat) returns (evicted: nat)
      modifies `files
      ensures Eviction(files, evicted) == RemoveToFit(old(files), order, size, config.diskBudget)
    {
      var total: nat, next: nat := size, 0;
      evicted := 0;
      ghost var all := RemoveToFit(files, order, size, config.diskBudget);
      assert order[0..] == order;
      while next < |order| && total > config.diskBudget
        invariant 0 <= next <= |order|
        invariant var rest := RemoveToFit(files, order[next..], total, config.diskBudget);
          all == Eviction(rest.files, evicted + rest.count)
      {
        var path := order[next];
        assert order[next..][1..] == order[next + 1..];
        total := SaturatingSub(total, SizeOf(files, path));
        files := files - {path};
        evicted := evicted + 1;
        next := next + 1;
      }
    }
  }
}
