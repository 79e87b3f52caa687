/** Whole sequential runs of one cache directory: hard budgets and true statistics,
    agreement with a plain map, and conservation of lookups. */
module CacheRuns {
  import opened Wrappers
  import opened ByteStrings
  import opened KeyCodec
  import opened EntryCodec
  import opened MemoryTier
  import opened DiskTier
  import opened Cache

  /** Operations on the store, a restart of the process, and changes made from outside. */
  datatype Op =
    | Lookup(key: CacheKey)
    | Store(key: CacheKey, payload: Bytes, now: Moment, listing: seq<string>)
    | Recovery(key: CacheKey)
    | Clearing
    | Reopening(listing: seq<string>)
    | Damage(name: string, bytes: Bytes, modified: nat)
    | Loss(name: string)

  ghost function Apply(config: Config, hash: Hasher, s: Cache.Store, op: Op): Cache.Store {
    match op
    case Lookup(key) => Get(config, hash, s, key).store
    case Store(key, payload, now, listing) => Put(config, hash, s, key, payload, now, listing)
    case Recovery(key) => RecoverCorrupt(s, key)
    case Clearing => Cleared(s)
    case Reopening(listing) => Open(config, s.files, listing)
    case Damage(name, bytes, modified) =>
      if name in s.files then s.(files := s.files[name := File(bytes, modified)]) else s
    case Loss(name) => s.(files := s.files - {name})
  }

  ghost function Run(config: Config, hash: Hasher, s: Cache.Store, ops: seq<Op>): Cache.Store {
    if ops == [] then s
    else Apply(config, hash, Run(config, hash, s, ops[..|ops| - 1]), ops[|ops| - 1])
  }

  // ---- Budgets and statistics ----

  /** The host lists the directory it actually has, and outside changes keep file sizes. */
  ghost predicate HostOk(config: Config, hash: Hasher, s: Cache.Store, op: Op) {
    match op
    case Store(key, payload, now, listing) =>
      IsListing(Written(config, hash, s.files, key, payload, now), listing)
    case Reopening(listing) => IsListing(s.files, listing)
    case Damage(name, bytes, _) => name in s.files ==> |bytes| == |s.files[name].bytes|
    case Loss(name) => !HasXvcExtension(name)
    case _ => true
  }

  /** Both hard budgets hold and all statistics are exact. */
  ghost predicate Bounded(config: Config, s: Cache.Store) {
    && StoreOk(config, s)
    && (config.diskBudget > 0 ==> DiskTotal(s.files) <= config.diskBudget)
  }

  lemma EvictedToBudgetBounded(config: Config, s: Cache.Store, listing: seq<string>)
    requires StoreOk(config, s) && IsListing(s.files, listing)
    ensures Bounded(config, EvictedToBudget(config, s, listing))
  {
    hide MemoryOk, EvictDisk, DiskTotal, IsListing, SparingOverflows;
    if config.diskBudget > 0 {
      EvictDiskMinimal(s.files, listing, config.diskBudget);
      OtherStatsOk(config.memoryBudget, s.mem, EvictedToBudget(config, s, listing).mem);
    }
  }

  lemma OpenBounded(config: Config, files: Files, listing: seq<string>)
    requires IsListing(files, listing)
    ensures Bounded(config, Open(config, files, listing))
  {
    EmptyOk(config.memoryBudget, Inventoried(FreshState, files));
    EvictedToBudgetBounded(config, Cache.Store(Inventoried(FreshState, files), files), listing);
  }

  lemma RemovedFile(files: Files, name: string)
    ensures name in CacheNames(files) ==>
              && DiskTotal(files) == |files[name].bytes| + DiskTotal(files - {name})
              && DiskCount(files) == 1 + DiskCount(files - {name})
    ensures name !in CacheNames(files) ==>
              DiskTotal(files) == DiskTotal(files - {name}) && DiskCount(files) == DiskCount(files - {name})
  {
    if name in CacheNames(files) {
      DiskTotalSplit(files, name);
      assert CacheNames(files) == CacheNames(files - {name}) + {name};
    } else {
      assert CacheNames(files) == CacheNames(files - {name});
      DiskTotalOther(files, files - {name});
    }
  }

  lemma GetBounded(config: Config, hash: Hasher, s: Cache.Store, key: CacheKey)
    requires Bounded(config, s)
    ensures Bounded(config, Get(config, hash, s, key).store)
  {
    TouchOk(config.memoryBudget, s.mem, key);
    EntryNameFaithful(key, key);
    RemovedFile(s.files, EntryName(key));
    if key !in s.mem.entries && EntryName(key) in s.files {
      var decoded := DecodeEntry(hash, key, s.files[EntryName(key)].bytes);
      if decoded.Some? {
        InsertMemoryOk(config.memoryBudget, DiskHit(Touch(s.mem, key)), key, decoded.value);
      }
    }
  }

  lemma ClearedBounded(config: Config, s: Cache.Store)
    requires Bounded(config, s)
    ensures Bounded(config, Cleared(s))
    ensures CacheNames(Cleared(s).files) == {}
  {
    EmptyOk(config.memoryBudget, ClearState(s.mem));
    assert CacheNames(Cleared(s).files) == {};
    assert CacheSizes(Cleared(s).files) == map[];
  }

  lemma StoreBounded(config: Config, hash: Hasher, s: Cache.Store, key: CacheKey, payload: Bytes, now: Moment, listing: seq<string>)
    requires Bounded(config, s) && IsListing(Written(config, hash, s.files, key, payload, now), listing)
    ensures Bounded(config, Put(config, hash, s, key, payload, now, listing))
  {
    hide MemoryOk, InsertMemory, DiskTotal, DiskCount, IsListing, Written, EvictedToBudget;
    if |payload| < U64_LIMIT {
      var files := Written(config, hash, s.files, key, payload, now);
      InsertMemoryOk(config.memoryBudget, s.mem, key, payload);
      var mem := InsertMemory(config.memoryBudget, s.mem, key, payload);
      InventoriedOk(config, mem, files);
      EvictedToBudgetBounded(config, Cache.Store(Inventoried(mem, files), files), listing);
    }
  }

  lemma InventoriedOk(config: Config, mem: State, files: Files)
    requires MemoryOk(config.memoryBudget, mem)
    ensures StoreOk(config, Cache.Store(Inventoried(mem, files), files))
  {
  }

  lemma RecoveryBounded(config: Config, s: Cache.Store, key: CacheKey)
    requires Bounded(config, s)
    ensures Bounded(config, RecoverCorrupt(s, key))
  {
    hide MemoryOk, DiskTotal, DiskCount;
    RecoverOk(config.memoryBudget, s.mem, key);
    InventoriedOk(config, Recover(s.mem, key), s.files - {EntryName(key)});
    RemovedFile(s.files, EntryName(key));
  }

  lemma DamageBounded(config: Config, s: Cache.Store, name: string, bytes: Bytes, modified: nat)
    requires Bounded(config, s) && name in s.files && |bytes| == |s.files[name].bytes|
    ensures Bounded(config, s.(files := s.files[name := File(bytes, modified)]))
  {
    hide MemoryOk, DiskTotal;
    var after := s.files[name := File(bytes, modified)];
    assert CacheNames(after) == CacheNames(s.files);
    DiskTotalOther(s.files, after);
  }

  lemma LossBounded(config: Config, s: Cache.Store, name: string)
    requires Bounded(config, s) && !HasXvcExtension(name)
    ensures Bounded(config, s.(files := s.files - {name}))
  {
    hide MemoryOk, DiskTotal, DiskCount;
    assert name !in CacheNames(s.files);
    RemovedFile(s.files, name);
  }

  lemma StepBounded(config: Config, hash: Hasher, s: Cache.Store, op: Op)
    requires Bounded(config, s) && HostOk(config, hash, s, op)
    ensures Bounded(config, Apply(config, hash, s, op))
  {
    hide Bounded, IsListing, Get, Put, RecoverCorrupt, Open, Cleared;
    match op
    case Lookup(key) => GetBounded(config, hash, s, key);
    case Store(key, payload, now, listing) => StoreBounded(config, hash, s, key, payload, now, listing);
    case Recovery(key) => RecoveryBounded(config, s, key);
    case Clearing => ClearedBounded(config, s);
    case Reopening(listing) => OpenBounded(config, s.files, listing);
    case Damage(name, bytes, modified) =>
      if name in s.files { DamageBounded(config, s, name, bytes, modified); }
    case Loss(name) => LossBounded(config, s, name);
  }

  ghost predicate HostOkThroughout(config: Config, hash: Hasher, s: Cache.Store, ops: seq<Op>) {
    forall i :: 0 <= i < |ops| ==> HostOk(config, hash, Run(config, hash, s, ops[..i]), ops[i])
  }

  /** From `open` on, after every operation of every run: memory bytes are exactly the
      resident payload bytes and within the memory budget, the `.xvc` total is within the
      disk budget, and the disk statistics are the true inventory. */
  lemma {:induction false} RunBounded(config: Config, hash: Hasher, files: Files, listing: seq<string>, ops: seq<Op>)
    requires IsListing(files, listing)
    requires HostOkThroughout(config, hash, Open(config, files, listing), ops)
    ensures Bounded(config, Run(config, hash, Open(config, files, listing), ops))
  {
    var start := Open(config, files, listing);
    if ops == [] {
      OpenBounded(config, files, listing);
    } else {
      var n := |ops| - 1;
      forall i | 0 <= i < n
        ensures HostOk(config, hash, Run(config, hash, start, ops[..n][..i]), ops[..n][i])
      {
        assert ops[..n][..i] == ops[..i];
      }
      hide Bounded, HostOk, Open;
      RunBounded(config, hash, files, listing, ops[..n]);
      StepBounded(config, hash, Run(config, hash, start, ops[..n]), ops[n]);
    }
  }

  /** The operation writes this file and renames it away. */
  predicate UsesTemporary(config: Config, op: Op, name: string) {
    op.Store? && config.diskBudget > 0 && name == TemporaryName(op.key, op.now.process)
  }

  /** A file that is no cache entry survives every run unchanged, unless a store uses its name
      for its temporary file. */
  lemma {:induction false} ForeignFilesKept(config: Config, hash: Hasher, s: Cache.Store, ops: seq<Op>, name: string)
    requires !HasXvcExtension(name)
    requires forall op :: op in ops ==> !op.Damage? && !op.Loss? && !UsesTemporary(config, op, name)
    ensures name in Run(config, hash, s, ops).files <==> name in s.files
    ensures name in s.files ==> Run(config, hash, s, ops).files[name] == s.files[name]
  {
    if ops != [] {
      var before := Run(config, hash, s, ops[..|ops| - 1]);
      var op := ops[|ops| - 1];
      ForeignFilesKept(config, hash, s, ops[..|ops| - 1], name);
      assert op in ops;
      match op
      case Lookup(key) => EntryNameFaithful(key, key);
      case Store(key, payload, now, listing) =>
        EntryNameFaithful(key, key);
        EvictDiskScope(Written(config, hash, before.files, key, payload, now), listing, config.diskBudget);
      case Recovery(key) => EntryNameFaithful(key, key);
      case Clearing =>
      case Reopening(listing) => EvictDiskScope(before.files, listing, config.diskBudget);
      case _ => assert false;
    }
  }

  /** And such a store does destroy it. */
  lemma TemporaryConsumed(config: Config, hash: Hasher, s: Cache.Store, key: CacheKey, payload: Bytes, now: Moment, listing: seq<string>)
    requires config.diskBudget > 0 && |payload| < U64_LIMIT
    ensures TemporaryName(key, now.process) !in Put(config, hash, s, key, payload, now, listing).files
  {
    EntryNameFaithful(key, key);
    TemporaryIsForeign(key, now.process);
    EvictDiskScope(Written(config, hash, s.files, key, payload, now), listing, config.diskBudget);
  }

  // ---- Agreement with a plain map ----

  type Contents = map<CacheKey, Bytes>

  /** What the disk tier can serve for a key, if anything. */
  ghost function OnDisk(config: Config, hash: Hasher, files: Files, key: CacheKey): Option<Bytes> {
    if config.diskBudget > 0 && EntryName(key) in files
    then DecodeEntry(hash, key, files[EntryName(key)].bytes) else None
  }

  /** Everything the memory tier holds is what the map has. */
  ghost predicate MemoryAgrees(entries: Entries, m: Contents) {
    forall k :: k in entries ==> k in m && entries[k].payload == m[k]
  }

  /** Everything the disk tier can serve is what the map has. */
  ghost predicate DiskAgrees(config: Config, hash: Hasher, files: Files, m: Contents) {
    forall k :: OnDisk(config, hash, files, k).Some? ==> k in m && OnDisk(config, hash, files, k).value == m[k]
  }

  ghost predicate Agrees(config: Config, hash: Hasher, s: Cache.Store, m: Contents) {
    MemoryAgrees(s.mem.entries, m) && DiskAgrees(config, hash, s.files, m)
  }

  /** The plain map: last stored payloads since the last recovery or clearing. */
  function NextContents(m: Contents, op: Op): Contents {
    match op
    case Store(key, payload, _, _) => if |payload| < U64_LIMIT then m[key := payload] else m
    case Recovery(key) => m - {key}
    case Clearing => map[]
    case _ => m
  }

  function RunContents(m: Contents, ops: seq<Op>): Contents {
    if ops == [] then m else NextContents(RunContents(m, ops[..|ops| - 1]), ops[|ops| - 1])
  }

  /** An oversize payload is not stored over a resident one. */
  predicate Replaceable(config: Config, s: Cache.Store, key: CacheKey, payload: Bytes) {
    |payload| <= config.memoryBudget || key !in s.mem.entries
  }

  /** Stores are replaceable, and damage only produces bytes that are no entry of the
      damaged file's own key. */
  ghost predicate Guarded(config: Config, hash: Hasher, s: Cache.Store, op: Op) {
    match op
    case Store(key, payload, _, _) => |payload| < U64_LIMIT ==> Replaceable(config, s, key, payload)
    case Damage(name, bytes, _) =>
      forall k :: EntryName(k) == name ==> DecodeEntry(hash, k, bytes) == None
    case _ => true
  }

  ghost predicate FewerFiles(files: Files, fewer: Files) {
    fewer.Keys <= files.Keys && forall name :: name in fewer ==> fewer[name] == files[name]
  }

  /** Files that were only removed decode as before. */
  lemma FewerFilesAgree(config: Config, hash: Hasher, files: Files, fewer: Files, m: Contents)
    requires FewerFiles(files, fewer) && DiskAgrees(config, hash, files, m)
    ensures DiskAgrees(config, hash, fewer, m)
  {
    forall k | OnDisk(config, hash, fewer, k).Some?
      ensures k in m && OnDisk(config, hash, fewer, k).value == m[k]
    {
      assert OnDisk(config, hash, fewer, k) == OnDisk(config, hash, files, k);
    }
  }

  /** An insertion of the map's own payload keeps the memory tier in agreement. */
  lemma InsertAgrees(budget: nat, s: State, key: CacheKey, payload: Bytes, before: Contents, m: Contents)
    requires MemoryOk(budget, s) && MemoryAgrees(s.entries, before)
    requires m == before[key := payload]
    requires |payload| <= budget || key !in s.entries
    ensures MemoryAgrees(InsertMemory(budget, s, key, payload).entries, m)
  {
    InsertMemoryOk(budget, s, key, payload);
    var t := InsertMemory(budget, s, key, payload);
    hide MemoryOk, InsertMemory;
    if !Fits(budget, payload) {
      assert key !in s.entries by { ZeroBudget(budget, s); }
    }
  }

  lemma ZeroBudget(budget: nat, s: State)
    requires MemoryOk(budget, s)
    ensures budget == 0 ==> s.entries == map[]
  {
  }

  /** Every hit, from either tier, returns what the map has. */
  lemma GetAgrees(config: Config, hash: Hasher, s: Cache.Store, key: CacheKey, m: Contents)
    requires MemoryOk(config.memoryBudget, s.mem) && Agrees(config, hash, s, m)
    ensures var r := Get(config, hash, s, key);
      && Agrees(config, hash, r.store, m)
      && (r.hit.Some? ==> key in m && r.hit.value.payload == m[key])
  {
    hide MemoryOk;
    TouchOk(config.memoryBudget, s.mem, key);
    var touched := Touch(s.mem, key);
    assert MemoryAgrees(touched.entries, m);
    var found := OnDisk(config, hash, s.files, key);
    if key !in s.mem.entries && found.Some? {
      DiskHitOk(config.memoryBudget, touched);
      assert m == m[key := found.value];
      InsertAgrees(config.memoryBudget, DiskHit(touched), key, found.value, m, m);
    } else {
      FewerFilesAgree(config, hash, s.files, s.files - {EntryName(key)}, m);
    }
  }

  lemma DiskHitOk(budget: nat, s: State)
    requires MemoryOk(budget, s)
    ensures MemoryOk(budget, DiskHit(s))
  {
  }

  /** Writing an entry changes what one key decodes to, and no other key. */
  lemma WrittenOnDisk(config: Config, hash: Hasher, files: Files, key: CacheKey, payload: Bytes, now: Moment, k: CacheKey)
    requires |payload| < U64_LIMIT
    ensures OnDisk(config, hash, Written(config, hash, files, key, payload, now), k)
         == if config.diskBudget > 0 && k == key then Some(payload) else OnDisk(config, hash, files, k)
  {
    EntryNameFaithful(key, k);
    TemporaryIsForeign(key, now.process);
    EntryExact(hash, key, Encoded(hash, key, payload), payload);
  }

  lemma PutDiskAgrees(config: Config, hash: Hasher, s: Cache.Store, key: CacheKey, payload: Bytes, now: Moment, listing: seq<string>, m: Contents)
    requires DiskAgrees(config, hash, s.files, m) && |payload| < U64_LIMIT
    ensures DiskAgrees(config, hash, Put(config, hash, s, key, payload, now, listing).files, m[key := payload])
  {
    var files := Written(config, hash, s.files, key, payload, now);
    forall k | OnDisk(config, hash, files, k).Some?
      ensures k in m[key := payload] && OnDisk(config, hash, files, k).value == m[key := payload][k]
    {
      WrittenOnDisk(config, hash, s.files, key, payload, now, k);
    }
    EvictDiskScope(files, listing, config.diskBudget);
    FewerFilesAgree(config, hash, files, EvictDisk(files, listing, config.diskBudget).files, m[key := payload]);
  }

  /** A store agrees with the updated map exactly when its guard held: an oversize payload
      put over a resident one leaves the old payload in memory. */
  lemma PutAgreesIff(config: Config, hash: Hasher, s: Cache.Store, key: CacheKey, payload: Bytes, now: Moment, listing: seq<string>, m: Contents)
    requires MemoryOk(config.memoryBudget, s.mem) && Agrees(config, hash, s, m)
    requires |payload| < U64_LIMIT
    ensures Agrees(config, hash, Put(config, hash, s, key, payload, now, listing), m[key := payload])
        <==> Replaceable(config, s, key, payload)
  {
    PutDiskAgrees(config, hash, s, key, payload, now, listing, m);
    var t := Put(config, hash, s, key, payload, now, listing);
    assert t.mem.entries == InsertMemory(config.memoryBudget, s.mem, key, payload).entries;
    if Replaceable(config, s, key, payload) {
      InsertAgrees(config.memoryBudget, s.mem, key, payload, m, m[key := payload]);
    } else {
      ResidentFits(config.memoryBudget, s.mem, key);
      assert t.mem.entries == s.mem.entries;
      assert t.mem.entries[key].payload != payload;
    }
  }

  lemma ResidentFits(budget: nat, s: State, key: CacheKey)
    requires MemoryOk(budget, s) && key in s.entries
    ensures |s.entries[key].payload| <= budget
  {
    ResidentSplit(s.entries, key);
  }

  /** The failing family made concrete: after such a store, the next lookup of the key is a
      memory hit on the payload that was meant to be replaced. */
  lemma OversizePutServesOldPayload(config: Config, hash: Hasher, s: Cache.Store, key: CacheKey, payload: Bytes, now: Moment, listing: seq<string>)
    requires MemoryOk(config.memoryBudget, s.mem) && |payload| < U64_LIMIT
    requires !Replaceable(config, s, key, payload)
    ensures var t := Put(config, hash, s, key, payload, now, listing);
      Get(config, hash, t, key).hit == Some(Hit(s.mem.entries[key].payload, Memory))
      && s.mem.entries[key].payload != payload
  {
    ResidentFits(config.memoryBudget, s.mem, key);
  }

  lemma StepAgrees(config: Config, hash: Hasher, s: Cache.Store, op: Op, m: Contents)
    requires MemoryOk(config.memoryBudget, s.mem) && Agrees(config, hash, s, m)
    requires Guarded(config, hash, s, op)
    ensures Agrees(config, hash, Apply(config, hash, s, op), NextContents(m, op))
  {
    hide MemoryOk, Get, RecoverCorrupt, Open, OnDisk;
    match op
    case Lookup(key) => GetAgrees(config, hash, s, key, m);
    case Store(key, payload, now, listing) =>
      if |payload| < U64_LIMIT { PutAgreesIff(config, hash, s, key, payload, now, listing, m); }
    case Recovery(key) => RecoveryAgrees(config, hash, s, key, m);
    case Clearing => ClearingAgrees(config, hash, s);
    case Reopening(listing) => ReopeningAgrees(config, hash, s, listing, m);
    case Damage(name, bytes, modified) =>
      if name in s.files { DamageAgrees(config, hash, s, name, bytes, modified, m); }
    case Loss(name) => FewerFilesAgree(config, hash, s.files, s.files - {name}, m);
  }

  lemma ClearingAgrees(config: Config, hash: Hasher, s: Cache.Store)
    ensures Agrees(config, hash, Cleared(s), map[])
  {
    forall k ensures OnDisk(config, hash, Cleared(s).files, k) == None { EntryNameFaithful(k, k); }
  }

  lemma ReopeningAgrees(config: Config, hash: Hasher, s: Cache.Store, listing: seq<string>, m: Contents)
    requires DiskAgrees(config, hash, s.files, m)
    ensures Agrees(config, hash, Open(config, s.files, listing), m)
  {
    EvictDiskScope(s.files, listing, config.diskBudget);
    FewerFilesAgree(config, hash, s.files, EvictDisk(s.files, listing, config.diskBudget).files, m);
  }

  lemma RecoveryAgrees(config: Config, hash: Hasher, s: Cache.Store, key: CacheKey, m: Contents)
    requires MemoryOk(config.memoryBudget, s.mem) && Agrees(config, hash, s, m)
    ensures Agrees(config, hash, RecoverCorrupt(s, key), m - {key})
  {
    RecoverOk(config.memoryBudget, s.mem, key);
    var files := s.files - {EntryName(key)};
    forall k | OnDisk(config, hash, files, k).Some?
      ensures k in m - {key} && OnDisk(config, hash, files, k).value == (m - {key})[k]
    {
      EntryNameFaithful(key, k);
      assert OnDisk(config, hash, files, k) == OnDisk(config, hash, s.files, k);
    }
  }

  lemma DamageAgrees(config: Config, hash: Hasher, s: Cache.Store, name: string, bytes: Bytes, modified: nat, m: Contents)
    requires Agrees(config, hash, s, m) && name in s.files
    requires forall k :: EntryName(k) == name ==> DecodeEntry(hash, k, bytes) == None
    ensures DiskAgrees(config, hash, s.files[name := File(bytes, modified)], m)
  {
    var files := s.files[name := File(bytes, modified)];
    forall k | OnDisk(config, hash, files, k).Some?
      ensures k in m && OnDisk(config, hash, files, k).value == m[k]
    {
      assert EntryName(k) != name;
      assert OnDisk(config, hash, files, k) == OnDisk(config, hash, s.files, k);
    }
  }

  /** The guards hold and the host is faithful at every step. */
  ghost predicate GuardedThroughout(config: Config, hash: Hasher, s: Cache.Store, ops: seq<Op>) {
    forall i :: 0 <= i < |ops| ==> Guarded(config, hash, Run(config, hash, s, ops[..i]), ops[i])
  }

  /** The invariant does not read the other statistics. */
  lemma OtherStatsOk(budget: nat, s: State, t: State)
    requires MemoryOk(budget, s)
    requires t == s.(stats := t.stats)
    requires t.stats.memoryBytes == s.stats.memoryBytes && t.stats.memoryEntries == s.stats.memoryEntries
    ensures MemoryOk(budget, t)
  {
  }

  lemma GetMemoryOk(config: Config, hash: Hasher, s: Cache.Store, key: CacheKey)
    requires MemoryOk(config.memoryBudget, s.mem)
    ensures MemoryOk(config.memoryBudget, Get(config, hash, s, key).store.mem)
  {
    hide MemoryOk;
    TouchOk(config.memoryBudget, s.mem, key);
    var touched := Touch(s.mem, key);
    var found := OnDisk(config, hash, s.files, key);
    if key !in s.mem.entries {
      if found.Some? {
        DiskHitOk(config.memoryBudget, touched);
        InsertMemoryOk(config.memoryBudget, DiskHit(touched), key, found.value);
      } else {
        OtherStatsOk(config.memoryBudget, touched, Get(config, hash, s, key).store.mem);
      }
    }
  }

  lemma MemoryStepOk(config: Config, hash: Hasher, s: Cache.Store, op: Op)
    requires MemoryOk(config.memoryBudget, s.mem)
    ensures MemoryOk(config.memoryBudget, Apply(config, hash, s, op).mem)
  {
    hide MemoryOk;
    var t := Apply(config, hash, s, op).mem;
    match op
    case Lookup(key) => GetMemoryOk(config, hash, s, key);
    case Store(key, payload, _, _) =>
      InsertMemoryOk(config.memoryBudget, s.mem, key, payload);
      if |payload| < U64_LIMIT {
        OtherStatsOk(config.memoryBudget, InsertMemory(config.memoryBudget, s.mem, key, payload), t);
      }
    case Recovery(key) =>
      RecoverOk(config.memoryBudget, s.mem, key);
      OtherStatsOk(config.memoryBudget, Recover(s.mem, key), t);
    case Clearing => EmptyOk(config.memoryBudget, ClearState(s.mem));
    case Reopening(listing) => EmptyOk(config.memoryBudget, t);
    case _ =>
  }

  /** Refinement: over any guarded run the cache never disagrees with the plain map. */
  lemma {:induction false} RunAgrees(config: Config, hash: Hasher, s: Cache.Store, ops: seq<Op>, m: Contents)
    requires MemoryOk(config.memoryBudget, s.mem) && Agrees(config, hash, s, m)
    requires GuardedThroughout(config, hash, s, ops)
    ensures MemoryOk(config.memoryBudget, Run(config, hash, s, ops).mem)
    ensures Agrees(config, hash, Run(config, hash, s, ops), RunContents(m, ops))
  {
    hide MemoryOk, Agrees, Guarded;
    if ops != [] {
      var n := |ops| - 1;
      forall i | 0 <= i < n
        ensures Guarded(config, hash, Run(config, hash, s, ops[..n][..i]), ops[..n][i])
      {
        assert ops[..n][..i] == ops[..i];
      }
      RunAgrees(config, hash, s, ops[..n], m);
      StepAgrees(config, hash, Run(config, hash, s, ops[..n]), ops[n], RunContents(m, ops[..n]));
      MemoryStepOk(config, hash, Run(config, hash, s, ops[..n]), ops[n]);
    }
  }

  /** Starting from an empty directory, every hit of every guarded run returns the payload
      last put for that key since the last clearing or recovery, whichever tier serves it,
      and the two tiers never hold different payloads for one key. */
  lemma EveryHitIsTheLastPut(config: Config, hash: Hasher, ops: seq<Op>, key: CacheKey)
    requires GuardedThroughout(config, hash, Open(config, map[], []), ops)
    ensures var s := Run(config, hash, Open(config, map[], []), ops);
      var m := RunContents(map[], ops);
      && (var hit := Get(config, hash, s, key).hit;
          hit.Some? ==> key in m && hit.value.payload == m[key])
      && (key in s.mem.entries && OnDisk(config, hash, s.files, key).Some?
          ==> OnDisk(config, hash, s.files, key).value == s.mem.entries[key].payload)
  {
    var start := Open(config, map[], []);
    EvictDiskScope(map[], [], config.diskBudget);
    EmptyOk(config.memoryBudget, start.mem);
    RunAgrees(config, hash, start, ops, map[]);
    GetAgrees(config, hash, Run(config, hash, start, ops), key, RunContents(map[], ops));
  }
}
