/** What each cache operation computes, as a function of the memory tier and the directory.
    A sequential operation is one function; the host supplies write times and listings. */
module Cache {
  import opened Wrappers
  import opened ByteStrings
  import opened KeyCodec
  import opened EntryCodec
  import opened MemoryTier
  import opened DiskTier

  /** A zero budget disables that tier. */
  datatype Config = Config(memoryBudget: nat, diskBudget: nat)

  datatype Store = Store(mem: State, files: Files)

  datatype Tier = Memory | Disk

  datatype Hit = Hit(payload: Bytes, tier: Tier)

  datatype Lookup = Lookup(store: Store, hit: Option<Hit>)

  function Missed(s: State): State {
    s.(stats := s.stats.(misses := s.stats.misses + 1))
  }

  function DiskHit(s: State): State {
    s.(stats := s.stats.(diskHits := s.stats.diskHits + 1))
  }

  /** A corrupt entry of `size` bytes was dropped: one corruption and one miss. */
  function DroppedCorrupt(s: State, size: nat): State {
    s.(stats := s.stats.(corruptions := s.stats.corruptions + 1,
                         misses := s.stats.misses + 1,
                         diskBytes := SaturatingSub(s.stats.diskBytes, size),
                         diskEntries := SaturatingSub(s.stats.diskEntries, 1)))
  }

  /** `refresh_disk_inventory`. */
  ghost function Inventoried(s: State, files: Files): State {
    s.(stats := s.stats.(diskBytes := DiskTotal(files), diskEntries := DiskCount(files)))
  }

  function AddEvictions(s: State, count: nat): State {
    s.(stats := s.stats.(evictions := s.stats.evictions + count))
  }

  /** `evict_disk_to_budget`. */
  ghost function EvictedToBudget(config: Config, s: Store, listing: seq<string>): Store {
    if config.diskBudget == 0 then s
    else
      var r := EvictDisk(s.files, listing, config.diskBudget);
      Store(AddEvictions(Inventoried(s.mem, r.files), r.count), r.files)
  }

  ghost function Open(config: Config, files: Files, listing: seq<string>): Store {
    EvictedToBudget(config, Store(Inventoried(FreshState, files), files), listing)
  }

  ghost function Get(config: Config, hash: Hasher, s: Store, key: CacheKey): Lookup {
    var touched := Touch(s.mem, key);
    var name := EntryName(key);
    if key in s.mem.entries then
      Lookup(s.(mem := touched), Some(Hit(s.mem.entries[key].payload, Memory)))
    else if config.diskBudget == 0 || name !in s.files then
      Lookup(s.(mem := Missed(touched)), None)
    else match DecodeEntry(hash, key, s.files[name].bytes)
      case None =>
        Lookup(Store(DroppedCorrupt(touched, |s.files[name].bytes|), s.files - {name}), None)
      case Some(payload) =>
        Lookup(s.(mem := InsertMemory(config.memoryBudget, DiskHit(touched), key, payload)),
               Some(Hit(payload, Disk)))
  }

  /** The directory after the temporary file was written and renamed into place: a file that
      had the temporary name is gone. */
  ghost function Written(config: Config, hash: Hasher, files: Files, key: CacheKey,
                         payload: Bytes, now: Moment): Files {
    if config.diskBudget == 0 then files
    else (files - {TemporaryName(key, now.process)})[EntryName(key) := File(Encoded(hash, key, payload), now.time)]
  }

  /** A payload whose length does not fit 64 bits is refused before anything is touched. */
  ghost function Put(config: Config, hash: Hasher, s: Store, key: CacheKey, payload: Bytes,
                     now: Moment, listing: seq<string>): Store {
    if |payload| >= U64_LIMIT then s
    else
      var files := Written(config, hash, s.files, key, payload, now);
      var mem := InsertMemory(config.memoryBudget, s.mem, key, payload);
      EvictedToBudget(config, Store(Inventoried(mem, files), files), listing)
  }

  ghost function RecoverCorrupt(s: Store, key: CacheKey): Store {
    var files := s.files - {EntryName(key)};
    Store(Inventoried(Recover(s.mem, key), files), files)
  }

  function Cleared(s: Store): Store {
    Store(ClearState(s.mem), s.files - CacheNames(s.files))
  }

  /** Memory accounting is exact, and the disk statistics are the true inventory. */
  ghost predicate StoreOk(config: Config, s: Store) {
    && MemoryOk(config.memoryBudget, s.mem)
    && s.mem.stats.diskBytes == DiskTotal(s.files)
    && s.mem.stats.diskEntries == DiskCount(s.files)
  }
}
