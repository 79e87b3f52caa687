/** LRU inclusion: with one payload size, a cache with the larger memory budget always
    holds every key that a cache with the smaller budget holds. */
module LruInclusion {
  import opened Wrappers
  import opened ByteStrings
  import opened KeyCodec
  import opened EntryCodec
  import opened FiniteMaps
  import opened MemoryTier
  import opened DiskTier
  import opened Cache
  import opened CacheRuns

  predicate Uniform(entries: Entries, size: nat) {
    forall k :: k in entries ==> |entries[k].payload| == size
  }

  /** How many entries of one size fit. */
  function Capacity(budget: nat, size: nat): nat
    requires size > 0
  {
    budget / size
  }

  lemma {:induction false} TimesMonotone(size: nat, a: nat, b: nat)
    requires a <= b
    ensures size * a <= size * b
  {
    if a < b {
      TimesMonotone(size, a, b - 1);
      TimesStep(size, b);
    }
  }

  lemma FitsCapacity(budget: nat, size: nat, count: nat)
    requires size > 0
    ensures size * count <= budget <==> count <= Capacity(budget, size)
  {
    var whole := budget / size;
    assert size * whole <= budget < size * whole + size;
    TimesStep(size, whole + 1);
    if count <= whole {
      TimesMonotone(size, count, whole);
    } else {
      TimesMonotone(size, whole + 1, count);
    }
  }

  lemma UniformBytes(budget: nat, s: State, size: nat)
    requires MemoryOk(budget, s) && Uniform(s.entries, size) && size > 0
    ensures s.memoryBytes == size * |s.entries|
    ensures |s.entries| <= Capacity(budget, size)
  {
    SumUniform(Sizes(s.entries), size);
    assert Sizes(s.entries).Keys == s.entries.Keys;
    assert |Sizes(s.entries)| == |Sizes(s.entries).Keys| == |s.entries.Keys| == |s.entries|;
    FitsCapacity(budget, size, |s.entries|);
  }

  /** What is left after making room for one more entry in a cache of `cap` entries. */
  ghost function Room(entries: Entries, cap: nat): Entries {
    if |entries| < cap || entries == map[] then entries else entries - {Oldest(entries)}
  }

  /** With one payload size an insertion evicts at most the single oldest entry. */
  lemma InsertUniform(budget: nat, s: State, key: CacheKey, payload: Bytes)
    requires MemoryOk(budget, s) && |payload| > 0 && Uniform(s.entries, |payload|)
    requires Capacity(budget, |payload|) > 0
    ensures InsertMemory(budget, s, key, payload).entries
         == Room(s.entries - {key}, Capacity(budget, |payload|))[key := MemoryEntry(payload, s.accessClock + 1)]
  {
    hide Stamped, Resident, InsertMemory, EvictToFit;
    var size := |payload|;
    var cleared := if key in s.entries then Forget(s, key) else s;
    FitsCapacity(budget, size, 1);
    InsertedState(budget, s, key, payload);
    ClearedUniform(budget, s, key, size);
    hide MemoryOk, Uniform;
    EvictUniform(cleared, size, budget);
  }

  lemma ClearedUniform(budget: nat, s: State, key: CacheKey, size: nat)
    requires MemoryOk(budget, s) && size > 0 && Uniform(s.entries, size)
    ensures var cleared := if key in s.entries then Forget(s, key) else s;
      && Accounted(cleared) && cleared.memoryBytes == size * |cleared.entries|
      && Uniform(cleared.entries, size) && |cleared.entries| <= Capacity(budget, size)
      && cleared.entries == s.entries - {key}
      && cleared.accessClock == s.accessClock
  {
    hide Stamped, Resident;
    UniformBytes(budget, s, size);
    if key in s.entries {
      ForgetAccounted(s, key);
      TimesStep(size, |s.entries|);
    } else {
      assert s.entries - {key} == s.entries;
    }
  }

  lemma TimesStep(size: nat, count: nat)
    ensures size * count == size * (count - 1) + size
  {
  }

  lemma EvictUniform(s: State, size: nat, budget: nat)
    requires Accounted(s) && size > 0 && s.memoryBytes == size * |s.entries|
    requires Uniform(s.entries, size)
    requires 0 < Capacity(budget, size) && |s.entries| <= Capacity(budget, size)
    ensures EvictToFit(s, size, budget)
         == if |s.entries| < Capacity(budget, size) || s.entries == map[] then s else EvictOldest(s)
  {
    hide Stamped, Resident;
    FitsCapacity(budget, size, |s.entries| + 1);
    FitsCapacity(budget, size, |s.entries|);
    TimesStep(size, |s.entries| + 1);
    if |s.entries| >= Capacity(budget, size) {
      EvictOldestAccounted(s);
      ForgetAccounted(s, Oldest(s.entries));
      assert EvictOldest(s).memoryBytes + size == s.memoryBytes;
    }
  }

  // ---- Two caches side by side ----

  /** The larger cache has every key of the smaller, in the same relative recency, and no
      more extra keys than its extra capacity. */
  ghost predicate Included(small: Entries, large: Entries, cap1: nat, cap2: nat) {
    && small.Keys <= large.Keys
    && |small| <= cap1 <= cap2 && |large| <= cap2
    && |large| - |small| <= cap2 - cap1
    && SameRecency(small, large)
  }

  predicate SameRecency(small: Entries, large: Entries) {
    forall j, k :: j in small && k in small && j in large && k in large
      ==> (small[j].lastAccess < small[k].lastAccess <==> large[j].lastAccess < large[k].lastAccess)
  }

  /** `key` becomes the most recent entry of `rest`. */
  predicate AddedLast(rest: Entries, key: CacheKey, after: Entries) {
    && key !in rest && key in after && after.Keys == rest.Keys + {key}
    && (forall k :: k in rest ==> after[k] == rest[k] && rest[k].lastAccess < after[key].lastAccess)
  }

  lemma AddedLastSize(rest: Entries, key: CacheKey, after: Entries)
    requires AddedLast(rest, key, after)
    ensures |after| == |rest| + 1
  {
    assert |after| == |after.Keys| && |rest| == |rest.Keys|;
  }

  lemma AddedLastRecency(rest1: Entries, rest2: Entries, key: CacheKey, after1: Entries, after2: Entries)
    requires rest1.Keys <= rest2.Keys && SameRecency(rest1, rest2)
    requires AddedLast(rest1, key, after1) && AddedLast(rest2, key, after2)
    ensures after1.Keys <= after2.Keys && SameRecency(after1, after2)
  {
  }

  lemma WithoutKey(entries: Entries, key: CacheKey)
    ensures |entries - {key}| == |entries| - (if key in entries then 1 else 0)
  {
    if key in entries {
      assert (entries - {key}).Keys == entries.Keys - {key};
      assert |entries| == |entries.Keys|;
    } else {
      assert entries - {key} == entries;
    }
  }

  lemma WithoutKeyIncluded(small: Entries, large: Entries, key: CacheKey, cap1: nat, cap2: nat)
    requires Included(small, large, cap1, cap2)
    ensures Included(small - {key}, large - {key}, cap1, cap2)
  {
    WithoutKey(small, key);
    WithoutKey(large, key);
  }

  /** If the larger cache evicts a common key then the smaller evicts the same one. */
  lemma RoomIncluded(small: Entries, large: Entries, cap1: nat, cap2: nat)
    requires Included(small, large, cap1, cap2) && 0 < cap1
    requires DistinctStamps(small) && DistinctStamps(large)
    ensures Room(small, cap1).Keys <= Room(large, cap2).Keys
    ensures SameRecency(Room(small, cap1), Room(large, cap2))
    ensures |Room(small, cap1)| < cap1 && |Room(large, cap2)| < cap2
    ensures |Room(large, cap2)| - |Room(small, cap1)| <= cap2 - cap1
  {
    RoomSize(small, cap1);
    RoomSize(large, cap2);
    if |large| == cap2 && Oldest(large) in small {
      CommonVictim(small, large);
    }
  }

  lemma RoomSize(entries: Entries, cap: nat)
    requires |entries| <= cap && 0 < cap
    ensures |Room(entries, cap)| == |entries| - (if |entries| == cap then 1 else 0)
  {
    if |entries| == cap {
      WithoutKey(entries, Oldest(entries));
    }
  }

  predicate DistinctStamps(entries: Entries) {
    forall j, k :: j in entries && k in entries && j != k ==> entries[j].lastAccess != entries[k].lastAccess
  }

  lemma CommonVictim(small: Entries, large: Entries)
    requires small.Keys <= large.Keys && SameRecency(small, large) && DistinctStamps(small)
    requires small != map[] && large != map[] && Oldest(large) in small
    ensures Oldest(small) == Oldest(large)
  {
    var a, b := Oldest(small), Oldest(large);
    assert a in large;
    assert large[b].lastAccess <= large[a].lastAccess && small[a].lastAccess <= small[b].lastAccess;
    assert !(large[a].lastAccess < large[b].lastAccess);
    assert !(small[a].lastAccess < small[b].lastAccess);
  }

  /** The same payload inserted into both keeps the inclusion. */
  lemma InsertIncluded(b1: nat, b2: nat, s1: State, s2: State, key: CacheKey, payload: Bytes)
    requires MemoryOk(b1, s1) && MemoryOk(b2, s2) && |payload| > 0
    requires Uniform(s1.entries, |payload|) && Uniform(s2.entries, |payload|)
    requires Included(s1.entries, s2.entries, Capacity(b1, |payload|), Capacity(b2, |payload|))
    ensures Included(InsertMemory(b1, s1, key, payload).entries, InsertMemory(b2, s2, key, payload).entries,
                     Capacity(b1, |payload|), Capacity(b2, |payload|))
  {
    var cap1, cap2 := Capacity(b1, |payload|), Capacity(b2, |payload|);
    var t1, t2 := InsertMemory(b1, s1, key, payload), InsertMemory(b2, s2, key, payload);
    WithoutKeyIncluded(s1.entries, s2.entries, key, cap1, cap2);
    var rest1, rest2 := s1.entries - {key}, s2.entries - {key};
    if cap1 == 0 {
      InsertIntoLargerOnly(b1, b2, s1, s2, key, payload);
    } else {
      StampsOf(b1, s1);
      StampsOf(b2, s2);
      InsertedLast(b1, s1, key, payload);
      InsertedLast(b2, s2, key, payload);
      hide InsertMemory, MemoryOk;
      RoomIncluded(rest1, rest2, cap1, cap2);
      AddedLastIncluded(Room(rest1, cap1), Room(rest2, cap2), key, t1.entries, t2.entries, cap1, cap2);
    }
  }

  lemma AddedLastIncluded(rest1: Entries, rest2: Entries, key: CacheKey, after1: Entries, after2: Entries, cap1: nat, cap2: nat)
    requires rest1.Keys <= rest2.Keys && SameRecency(rest1, rest2)
    requires AddedLast(rest1, key, after1) && AddedLast(rest2, key, after2)
    requires |rest1| < cap1 <= cap2 && |rest2| < cap2 && |rest2| - |rest1| <= cap2 - cap1
    ensures Included(after1, after2, cap1, cap2)
  {
    AddedLastRecency(rest1, rest2, key, after1, after2);
    AddedLastSize(rest1, key, after1);
    AddedLastSize(rest2, key, after2);
  }

  /** A budget below one payload keeps the smaller cache empty. */
  lemma InsertIntoLargerOnly(b1: nat, b2: nat, s1: State, s2: State, key: CacheKey, payload: Bytes)
    requires MemoryOk(b2, s2) && |payload| > 0
    requires Uniform(s2.entries, |payload|)
    requires Included(s1.entries, s2.entries, Capacity(b1, |payload|), Capacity(b2, |payload|))
    requires Capacity(b1, |payload|) == 0
    ensures Included(InsertMemory(b1, s1, key, payload).entries, InsertMemory(b2, s2, key, payload).entries,
                     Capacity(b1, |payload|), Capacity(b2, |payload|))
  {
    NothingFits(b1, s1, key, payload);
    assert s1.entries == map[];
    InsertMemoryOk(b2, s2, key, payload);
    InsertMemoryUniform(b2, s2, key, payload);
    UniformBytes(b2, InsertMemory(b2, s2, key, payload), |payload|);
  }

  lemma StampsOf(budget: nat, s: State)
    requires MemoryOk(budget, s)
    ensures DistinctStamps(s.entries)
  {
  }

  lemma InsertedLast(budget: nat, s: State, key: CacheKey, payload: Bytes)
    requires MemoryOk(budget, s) && |payload| > 0 && Uniform(s.entries, |payload|)
    requires Capacity(budget, |payload|) > 0
    ensures AddedLast(Room(s.entries - {key}, Capacity(budget, |payload|)), key,
                      InsertMemory(budget, s, key, payload).entries)
  {
    hide InsertMemory, Room, AddedLast, Capacity, Uniform;
    InsertUniform(budget, s, key, payload);
    var rest := Room(s.entries - {key}, Capacity(budget, |payload|));
    RoomKeeps(s, key, Capacity(budget, |payload|));
    NotInFuture(budget, s);
    hide MemoryOk;
    LinkedLast(rest, key, MemoryEntry(payload, s.accessClock + 1));
  }

  lemma RoomKeeps(s: State, key: CacheKey, cap: nat)
    ensures var rest := Room(s.entries - {key}, cap);
      key !in rest && forall k :: k in rest ==> k in s.entries && rest[k] == s.entries[k]
  {
  }

  lemma NotInFuture(budget: nat, s: State)
    requires MemoryOk(budget, s)
    ensures forall k :: k in s.entries ==> s.entries[k].lastAccess <= s.accessClock
  {
  }

  lemma LinkedLast(rest: Entries, key: CacheKey, entry: MemoryEntry)
    requires key !in rest && forall k :: k in rest ==> rest[k].lastAccess < entry.lastAccess
    ensures AddedLast(rest, key, rest[key := entry])
  {
  }

  lemma InsertMemoryUniform(budget: nat, s: State, key: CacheKey, payload: Bytes)
    requires MemoryOk(budget, s) && Uniform(s.entries, |payload|)
    ensures Uniform(InsertMemory(budget, s, key, payload).entries, |payload|)
  {
    InsertMemoryOk(budget, s, key, payload);
    hide InsertMemory, MemoryOk;
  }

  // ---- Whole operations ----

  lemma TouchedLast(s: State, key: CacheKey)
    requires key in s.entries && Stamped(s.entries, s.accessClock)
    ensures AddedLast(s.entries - {key}, key, Touch(s, key).entries)
    ensures |Touch(s, key).entries| == |s.entries|
  {
    var t := Touch(s, key).entries;
    assert t.Keys == s.entries.Keys;
    assert |t| == |t.Keys| && |s.entries| == |s.entries.Keys|;
  }

  lemma TouchIncluded(s1: State, s2: State, key: CacheKey, cap1: nat, cap2: nat)
    requires Included(s1.entries, s2.entries, cap1, cap2)
    requires Stamped(s1.entries, s1.accessClock) && Stamped(s2.entries, s2.accessClock)
    ensures Included(Touch(s1, key).entries, Touch(s2, key).entries, cap1, cap2)
  {
    hide SameRecency, AddedLast, Stamped;
    if key in s2.entries {
      TouchedLast(s2, key);
      if key in s1.entries {
        TouchedLast(s1, key);
        var rest1, rest2 := s1.entries - {key}, s2.entries - {key};
        RestRecency(s1.entries, s2.entries, rest1, rest2);
        AddedLastRecency(rest1, rest2, key, Touch(s1, key).entries, Touch(s2, key).entries);
      } else {
        ExtraTouched(s1.entries, s2.entries, Touch(s2, key).entries, key);
      }
    }
  }

  lemma ExtraTouched(small: Entries, large: Entries, touched: Entries, key: CacheKey)
    requires small.Keys <= large.Keys && key !in small && SameRecency(small, large)
    requires AddedLast(large - {key}, key, touched)
    ensures small.Keys <= touched.Keys && SameRecency(small, touched)
  {
    forall k | k in small ensures k in touched && touched[k] == large[k] {
      assert k in large - {key};
    }
  }

  lemma TouchUniform(s: State, key: CacheKey, size: nat)
    requires Uniform(s.entries, size)
    ensures Uniform(Touch(s, key).entries, size)
  {
  }

  predicate MostRecent(entries: Entries, key: CacheKey) {
    key in entries
    && forall k :: k in entries && k != key ==> entries[k].lastAccess < entries[key].lastAccess
  }

  lemma MostRecentLast(entries: Entries, key: CacheKey)
    requires MostRecent(entries, key)
    ensures AddedLast(entries - {key}, key, entries)
  {
  }

  /** A disk hit in the smaller cache only: the larger has just refreshed the same key. */
  lemma InsertSmallerOnly(b1: nat, s1: State, entries2: Entries, key: CacheKey, payload: Bytes, cap2: nat)
    requires MemoryOk(b1, s1) && |payload| > 0 && Uniform(s1.entries, |payload|)
    requires Included(s1.entries, entries2, Capacity(b1, |payload|), cap2)
    requires key !in s1.entries && MostRecent(entries2, key)
    ensures Included(InsertMemory(b1, s1, key, payload).entries, entries2, Capacity(b1, |payload|), cap2)
  {
    hide *;
    var cap1 := Capacity(b1, |payload|);
    if cap1 == 0 {
      NothingFits(b1, s1, key, payload);
    } else {
      InsertedLast(b1, s1, key, payload);
      assert s1.entries - {key} == s1.entries;
      MostRecentLast(entries2, key);
      SmallerCatchesUp(s1.entries, entries2, key, InsertMemory(b1, s1, key, payload).entries, cap1, cap2);
    }
  }

  lemma NothingFits(budget: nat, s: State, key: CacheKey, payload: Bytes)
    requires |payload| > 0 && Capacity(budget, |payload|) == 0
    ensures InsertMemory(budget, s, key, payload) == s
  {
    FitsCapacity(budget, |payload|, 1);
  }

  lemma SmallerCatchesUp(small: Entries, large: Entries, key: CacheKey, after: Entries, cap1: nat, cap2: nat)
    requires Included(small, large, cap1, cap2) && 0 < cap1
    requires key !in small && key in large
    requires AddedLast(Room(small, cap1), key, after) && AddedLast(large - {key}, key, large)
    ensures Included(after, large, cap1, cap2)
  {
    hide SameRecency, AddedLast;
    var room, others := Room(small, cap1), large - {key};
    WithoutKey(large, key);
    if |small| >= cap1 { WithoutKey(small, Oldest(small)); }
    RestRecency(small, large, room, others);
    AddedLastIncluded(room, others, key, after, large, cap1, cap2);
  }

  lemma RestRecency(small: Entries, large: Entries, small': Entries, large': Entries)
    requires SameRecency(small, large)
    requires forall k :: k in small' ==> k in small && small'[k] == small[k]
    requires forall k :: k in large' ==> k in large && large'[k] == large[k]
    ensures SameRecency(small', large')
  {
  }

  // ---- Runs ----

  /** Every cache entry on disk is a valid entry with a payload of the one size. */
  ghost predicate CleanDisk(hash: Hasher, files: Files, size: nat) {
    forall k :: EntryName(k) in files ==> CleanFile(hash, files[EntryName(k)], k, size)
  }

  ghost predicate CleanFile(hash: Hasher, file: File, key: CacheKey, size: nat) {
    var decoded := DecodeEntry(hash, key, file.bytes);
    decoded.Some? && |decoded.value| == size
  }

  /** Operations common to both caches, with payloads of the one size and no disk damage. */
  predicate SameSized(op: Op, size: nat) {
    match op
    case Store(_, payload, _, _) => |payload| == size
    case Damage(_, _, _) => false
    case _ => true
  }

  predicate Comparable(c1: Config, c2: Config) {
    c1.memoryBudget <= c2.memoryBudget && c1.diskBudget == c2.diskBudget
  }

  ghost predicate PairedMemory(b1: nat, b2: nat, m1: State, m2: State, size: nat)
    requires size > 0
  {
    && MemoryOk(b1, m1) && MemoryOk(b2, m2)
    && Uniform(m1.entries, size) && Uniform(m2.entries, size)
    && Included(m1.entries, m2.entries, Capacity(b1, size), Capacity(b2, size))
  }

  ghost predicate FewerHits(m1: State, m2: State) {
    m1.stats.memoryHits <= m2.stats.memoryHits && m2.stats.misses <= m1.stats.misses
  }

  /** Everything kept between a small-memory and a large-memory cache on equal disks. */
  ghost predicate Paired(c1: Config, c2: Config, hash: Hasher, s1: Cache.Store, s2: Cache.Store, size: nat)
    requires size > 0
  {
    && PairedMemory(c1.memoryBudget, c2.memoryBudget, s1.mem, s2.mem, size)
    && FewerHits(s1.mem, s2.mem)
    && s1.files == s2.files && CleanDisk(hash, s1.files, size)
  }

  lemma PairedTouch(b1: nat, b2: nat, m1: State, m2: State, key: CacheKey, size: nat)
    requires size > 0 && PairedMemory(b1, b2, m1, m2, size)
    ensures PairedMemory(b1, b2, Touch(m1, key), Touch(m2, key), size)
  {
    TouchOk(b1, m1, key);
    TouchOk(b2, m2, key);
    StampedOf(b1, m1);
    StampedOf(b2, m2);
    hide MemoryOk, Stamped;
    TouchUniform(m1, key, size);
    TouchUniform(m2, key, size);
    hide Included, Uniform, Touch;
    TouchIncluded(m1, m2, key, Capacity(b1, size), Capacity(b2, size));
  }

  lemma StampedOf(budget: nat, s: State)
    requires MemoryOk(budget, s)
    ensures Stamped(s.entries, s.accessClock)
  {
  }

  lemma PairedInsert(b1: nat, b2: nat, m1: State, m2: State, key: CacheKey, payload: Bytes)
    requires |payload| > 0 && PairedMemory(b1, b2, m1, m2, |payload|)
    ensures PairedMemory(b1, b2, InsertMemory(b1, m1, key, payload), InsertMemory(b2, m2, key, payload), |payload|)
  {
    hide MemoryOk, Included, Uniform, InsertMemory;
    InsertMemoryOk(b1, m1, key, payload);
    InsertMemoryOk(b2, m2, key, payload);
    InsertMemoryUniform(b1, m1, key, payload);
    InsertMemoryUniform(b2, m2, key, payload);
    InsertIncluded(b1, b2, m1, m2, key, payload);
  }

  /** The pairing does not read the statistics of either tier beyond the mirrored ones. */
  lemma PairedStats(b1: nat, b2: nat, m1: State, m2: State, n1: State, n2: State, size: nat)
    requires size > 0 && PairedMemory(b1, b2, m1, m2, size)
    requires SameTier(m1, n1) && SameTier(m2, n2)
    ensures PairedMemory(b1, b2, n1, n2, size)
  {
    hide MemoryOk, Included, Uniform;
    OtherStatsOk(b1, m1, n1);
    OtherStatsOk(b2, m2, n2);
  }

  predicate SameTier(s: State, t: State) {
    && t == s.(stats := t.stats)
    && t.stats.memoryBytes == s.stats.memoryBytes && t.stats.memoryEntries == s.stats.memoryEntries
  }

  /** Both caches look up a key that neither holds, or both hold. */
  lemma PairedGetAlike(c1: Config, c2: Config, hash: Hasher, s1: Cache.Store, s2: Cache.Store, key: CacheKey, size: nat)
    requires size > 0 && Comparable(c1, c2) && Paired(c1, c2, hash, s1, s2, size)
    requires key in s1.mem.entries <==> key in s2.mem.entries
    ensures Paired(c1, c2, hash, Get(c1, hash, s1, key).store, Get(c2, hash, s2, key).store, size)
  {
    hide PairedMemory, InsertMemory, CleanFile;
    var t1, t2 := Touch(s1.mem, key), Touch(s2.mem, key);
    PairedTouch(c1.memoryBudget, c2.memoryBudget, s1.mem, s2.mem, key, size);
    if key !in s1.mem.entries {
      if c1.diskBudget > 0 && EntryName(key) in s1.files {
        CleanHit(hash, s1.files, key, size);
        var payload := DecodeEntry(hash, key, s1.files[EntryName(key)].bytes).value;
        PairedStats(c1.memoryBudget, c2.memoryBudget, t1, t2, DiskHit(t1), DiskHit(t2), size);
        PairedInsert(c1.memoryBudget, c2.memoryBudget, DiskHit(t1), DiskHit(t2), key, payload);
        InsertCounts(c1.memoryBudget, DiskHit(t1), key, payload);
        InsertCounts(c2.memoryBudget, DiskHit(t2), key, payload);
      } else {
        PairedStats(c1.memoryBudget, c2.memoryBudget, t1, t2, Missed(t1), Missed(t2), size);
      }
    }
  }

  lemma CleanHit(hash: Hasher, files: Files, key: CacheKey, size: nat)
    requires CleanDisk(hash, files, size) && EntryName(key) in files
    ensures var decoded := DecodeEntry(hash, key, files[EntryName(key)].bytes);
      decoded.Some? && |decoded.value| == size
  {
    assert CleanFile(hash, files[EntryName(key)], key, size);
  }

  lemma InsertCounts(budget: nat, s: State, key: CacheKey, payload: Bytes)
    ensures InsertMemory(budget, s, key, payload).stats.memoryHits == s.stats.memoryHits
    ensures InsertMemory(budget, s, key, payload).stats.misses == s.stats.misses
  {
    if Fits(budget, payload) {
      EvictCounts(if key in s.entries then Forget(s, key) else s, |payload|, budget);
    }
  }

  lemma {:induction false} EvictCounts(s: State, need: nat, budget: nat)
    ensures EvictToFit(s, need, budget).stats.memoryHits == s.stats.memoryHits
    ensures EvictToFit(s, need, budget).stats.misses == s.stats.misses
    decreases |s.entries|
  {
    if s.memoryBytes + need > budget && s.entries != map[] {
      EvictCounts(EvictOldest(s), need, budget);
    }
  }

  /** The larger cache has the key in memory and the smaller has not. */
  lemma PairedGetExtra(c1: Config, c2: Config, hash: Hasher, s1: Cache.Store, s2: Cache.Store, key: CacheKey, size: nat)
    requires size > 0 && Comparable(c1, c2) && Paired(c1, c2, hash, s1, s2, size)
    requires key !in s1.mem.entries && key in s2.mem.entries
    ensures Paired(c1, c2, hash, Get(c1, hash, s1, key).store, Get(c2, hash, s2, key).store, size)
  {
    hide PairedMemory, InsertMemory, CleanFile;
    var t1, t2 := Touch(s1.mem, key), Touch(s2.mem, key);
    PairedTouch(c1.memoryBudget, c2.memoryBudget, s1.mem, s2.mem, key, size);
    if c1.diskBudget > 0 && EntryName(key) in s1.files {
      CleanHit(hash, s1.files, key, size);
      var payload := DecodeEntry(hash, key, s1.files[EntryName(key)].bytes).value;
      PairedStats(c1.memoryBudget, c2.memoryBudget, t1, t2, DiskHit(t1), t2, size);
      JustTouched(c2.memoryBudget, s2.mem, key) by { PairedParts(c1.memoryBudget, c2.memoryBudget, s1.mem, s2.mem, size); }
      PairedInsertSmaller(c1.memoryBudget, c2.memoryBudget, DiskHit(t1), t2, key, payload);
      InsertCounts(c1.memoryBudget, DiskHit(t1), key, payload);
    } else {
      PairedStats(c1.memoryBudget, c2.memoryBudget, t1, t2, Missed(t1), t2, size);
    }
  }

  lemma PairedParts(b1: nat, b2: nat, m1: State, m2: State, size: nat)
    requires size > 0 && PairedMemory(b1, b2, m1, m2, size)
    ensures MemoryOk(b1, m1) && MemoryOk(b2, m2)
  {
  }

  lemma JustTouched(budget: nat, s: State, key: CacheKey)
    requires MemoryOk(budget, s) && key in s.entries
    ensures MostRecent(Touch(s, key).entries, key)
  {
  }

  lemma PairedInsertSmaller(b1: nat, b2: nat, m1: State, m2: State, key: CacheKey, payload: Bytes)
    requires |payload| > 0 && PairedMemory(b1, b2, m1, m2, |payload|)
    requires key !in m1.entries && MostRecent(m2.entries, key)
    ensures PairedMemory(b1, b2, InsertMemory(b1, m1, key, payload), m2, |payload|)
  {
    hide MemoryOk, Included, Uniform, InsertMemory, MostRecent;
    InsertMemoryOk(b1, m1, key, payload);
    InsertMemoryUniform(b1, m1, key, payload);
    InsertSmallerOnly(b1, m1, m2.entries, key, payload, Capacity(b2, |payload|));
  }

  lemma PairedPut(c1: Config, c2: Config, hash: Hasher, s1: Cache.Store, s2: Cache.Store, key: CacheKey, payload: Bytes, now: Moment, listing: seq<string>)
    requires |payload| > 0 && Comparable(c1, c2) && Paired(c1, c2, hash, s1, s2, |payload|)
    ensures Paired(c1, c2, hash, Put(c1, hash, s1, key, payload, now, listing),
                   Put(c2, hash, s2, key, payload, now, listing), |payload|)
  {
    hide PairedMemory, InsertMemory, CleanFile;
    var t1, t2 := Put(c1, hash, s1, key, payload, now, listing), Put(c2, hash, s2, key, payload, now, listing);
    if |payload| < U64_LIMIT {
      var n1, n2 := InsertMemory(c1.memoryBudget, s1.mem, key, payload), InsertMemory(c2.memoryBudget, s2.mem, key, payload);
      PairedInsert(c1.memoryBudget, c2.memoryBudget, s1.mem, s2.mem, key, payload);
      InsertCounts(c1.memoryBudget, s1.mem, key, payload);
      InsertCounts(c2.memoryBudget, s2.mem, key, payload);
      PairedStats(c1.memoryBudget, c2.memoryBudget, n1, n2, t1.mem, t2.mem, |payload|);
      var files := Written(c1, hash, s1.files, key, payload, now);
      WrittenClean(c1, hash, s1.files, key, payload, now);
      EvictDiskScope(files, listing, c1.diskBudget);
      FewerClean(hash, files, t1.files, |payload|);
    }
  }

  lemma WrittenClean(config: Config, hash: Hasher, files: Files, key: CacheKey, payload: Bytes, now: Moment)
    requires |payload| < U64_LIMIT && CleanDisk(hash, files, |payload|)
    ensures CleanDisk(hash, Written(config, hash, files, key, payload, now), |payload|)
  {
    var after := Written(config, hash, files, key, payload, now);
    EntryExact(hash, key, Encoded(hash, key, payload), payload);
    TemporaryIsForeign(key, now.process);
    forall k | EntryName(k) in after ensures CleanFile(hash, after[EntryName(k)], k, |payload|) {
      EntryNameFaithful(key, k);
      if config.diskBudget == 0 || k != key { assert CleanFile(hash, files[EntryName(k)], k, |payload|); }
    }
  }

  lemma FewerClean(hash: Hasher, files: Files, fewer: Files, size: nat)
    requires CleanDisk(hash, files, size) && FewerFiles(files, fewer)
    ensures CleanDisk(hash, fewer, size)
  {
    forall k | EntryName(k) in fewer ensures CleanFile(hash, fewer[EntryName(k)], k, size) {
      assert CleanFile(hash, files[EntryName(k)], k, size);
    }
  }

  lemma PairedEmpty(c1: Config, c2: Config, hash: Hasher, s1: Cache.Store, s2: Cache.Store, size: nat)
    requires size > 0 && Comparable(c1, c2)
    requires EmptyTier(s1.mem) && EmptyTier(s2.mem) && FewerHits(s1.mem, s2.mem)
    requires s1.files == s2.files && CleanDisk(hash, s1.files, size)
    ensures Paired(c1, c2, hash, s1, s2, size)
  {
    EmptyOk(c1.memoryBudget, s1.mem);
    EmptyOk(c2.memoryBudget, s2.mem);
    FitsCapacity(c2.memoryBudget, size, Capacity(c1.memoryBudget, size));
    FitsCapacity(c1.memoryBudget, size, Capacity(c1.memoryBudget, size));
  }

  predicate EmptyTier(s: State) {
    s.entries == map[] && s.memoryBytes == 0 && s.stats.memoryBytes == 0 && s.stats.memoryEntries == 0
  }

  lemma PairedRecovery(c1: Config, c2: Config, hash: Hasher, s1: Cache.Store, s2: Cache.Store, key: CacheKey, size: nat)
    requires size > 0 && Paired(c1, c2, hash, s1, s2, size)
    ensures Paired(c1, c2, hash, RecoverCorrupt(s1, key), RecoverCorrupt(s2, key), size)
  {
    hide PairedMemory, MemoryOk, CleanDisk;
    RecoveredMemory(c1.memoryBudget, c2.memoryBudget, s1.mem, s2.mem, key, size);
    FewerClean(hash, s1.files, s1.files - {EntryName(key)}, size);
    var t1, t2 := RecoverCorrupt(s1, key), RecoverCorrupt(s2, key);
    PairedStats(c1.memoryBudget, c2.memoryBudget, Recover(s1.mem, key), Recover(s2.mem, key), t1.mem, t2.mem, size);
  }

  lemma RecoveredMemory(b1: nat, b2: nat, m1: State, m2: State, key: CacheKey, size: nat)
    requires size > 0 && PairedMemory(b1, b2, m1, m2, size)
    ensures PairedMemory(b1, b2, Recover(m1, key), Recover(m2, key), size)
  {
    hide MemoryOk, Included, Capacity;
    RecoverOk(b1, m1, key);
    RecoverOk(b2, m2, key);
    WithoutKeyIncluded(m1.entries, m2.entries, key, Capacity(b1, size), Capacity(b2, size));
    hide Recover;
  }

  lemma StepPaired(c1: Config, c2: Config, hash: Hasher, s1: Cache.Store, s2: Cache.Store, op: Op, size: nat)
    requires size > 0 && Comparable(c1, c2) && SameSized(op, size)
    requires Paired(c1, c2, hash, s1, s2, size)
    ensures Paired(c1, c2, hash, Apply(c1, hash, s1, op), Apply(c2, hash, s2, op), size)
  {
    hide Get, Put, Open, Cleared, RecoverCorrupt, PairedMemory, CleanDisk;
    match op
    case Lookup(key) =>
      IncludedKey(c1, c2, hash, s1, s2, key, size);
      if key !in s1.mem.entries && key in s2.mem.entries {
        PairedGetExtra(c1, c2, hash, s1, s2, key, size);
      } else {
        PairedGetAlike(c1, c2, hash, s1, s2, key, size);
      }
    case Store(key, payload, now, listing) => PairedPut(c1, c2, hash, s1, s2, key, payload, now, listing);
    case Recovery(key) => PairedRecovery(c1, c2, hash, s1, s2, key, size);
    case Clearing => PairedClear(c1, c2, hash, s1, s2, size);
    case Reopening(listing) => PairedOpen(c1, c2, hash, s1.files, listing, size);
    case Loss(name) => FewerClean(hash, s1.files, s1.files - {name}, size);
  }

  lemma PairedClear(c1: Config, c2: Config, hash: Hasher, s1: Cache.Store, s2: Cache.Store, size: nat)
    requires size > 0 && Comparable(c1, c2) && Paired(c1, c2, hash, s1, s2, size)
    ensures Paired(c1, c2, hash, Cleared(s1), Cleared(s2), size)
  {
    FewerClean(hash, s1.files, Cleared(s1).files, size);
    hide Paired, CleanDisk;
    PairedEmpty(c1, c2, hash, Cleared(s1), Cleared(s2), size);
  }

  lemma PairedOpen(c1: Config, c2: Config, hash: Hasher, files: Files, listing: seq<string>, size: nat)
    requires size > 0 && Comparable(c1, c2) && CleanDisk(hash, files, size)
    ensures Paired(c1, c2, hash, Open(c1, files, listing), Open(c2, files, listing), size)
  {
    hide Paired, CleanDisk, EvictDisk;
    EvictDiskScope(files, listing, c1.diskBudget);
    FewerClean(hash, files, EvictDisk(files, listing, c1.diskBudget).files, size);
    PairedEmpty(c1, c2, hash, Open(c1, files, listing), Open(c2, files, listing), size);
  }

  lemma IncludedKey(c1: Config, c2: Config, hash: Hasher, s1: Cache.Store, s2: Cache.Store, key: CacheKey, size: nat)
    requires size > 0 && Paired(c1, c2, hash, s1, s2, size)
    ensures key in s1.mem.entries ==> key in s2.mem.entries
    ensures s1.mem.entries.Keys <= s2.mem.entries.Keys
  {
  }

  lemma {:induction false} RunPaired(c1: Config, c2: Config, hash: Hasher, s1: Cache.Store, s2: Cache.Store, ops: seq<Op>, size: nat)
    requires size > 0 && Comparable(c1, c2) && Paired(c1, c2, hash, s1, s2, size)
    requires forall op :: op in ops ==> SameSized(op, size)
    ensures Paired(c1, c2, hash, Run(c1, hash, s1, ops), Run(c2, hash, s2, ops), size)
  {
    if ops != [] {
      hide Paired, SameSized;
      var front, op := ops[..|ops| - 1], ops[|ops| - 1];
      RunPaired(c1, c2, hash, s1, s2, front, size);
      assert op in ops;
      StepPaired(c1, c2, hash, Run(c1, hash, s1, front), Run(c2, hash, s2, front), op, size);
    }
  }

  /** No Belady anomaly: from the opening of equal clean disks on, through any run of
      equal-sized operations, the larger memory budget keeps a superset of the resident
      keys, serves at least as many lookups from memory, and misses at most as often. The
      disks stay equal. */
  lemma MoreMemoryNeverHurts(c1: Config, c2: Config, hash: Hasher, files: Files, listing: seq<string>, ops: seq<Op>, size: nat)
    requires size > 0 && Comparable(c1, c2) && CleanDisk(hash, files, size)
    requires forall op :: op in ops ==> SameSized(op, size)
    ensures var s1 := Run(c1, hash, Open(c1, files, listing), ops);
      var s2 := Run(c2, hash, Open(c2, files, listing), ops);
      && s1.mem.entries.Keys <= s2.mem.entries.Keys
      && s1.mem.stats.memoryHits <= s2.mem.stats.memoryHits
      && s2.mem.stats.misses <= s1.mem.stats.misses
      && s1.files == s2.files
  {
    var o1, o2 := Open(c1, files, listing), Open(c2, files, listing);
    PairedOpen(c1, c2, hash, files, listing, size);
    hide Open, Run;
    RunPaired(c1, c2, hash, o1, o2, ops, size);
  }
}
