/** Concurrent agreement, one key at a time: in every interleaving in which stores, recoveries
    and clearings of a key do not overlap other operations on that key, both tiers agree with
    the last completed store of the key. Operations on other keys interleave freely, and so
    do lookups of the key with each other. */
module CacheAgreement {
  import opened Wrappers
  import opened ByteStrings
  import opened KeyCodec
  import opened EntryCodec
  import opened MemoryTier
  import opened DiskTier
  import Cache
  import opened CacheRuns
  import opened CacheInterleaving

  // ---- The discipline ----

  predicate BusyWith(p: Phase, k: CacheKey) {
    !p.Idle? && p.key == k
  }

  predicate Storing(p: Phase, k: CacheKey) {
    (p.Writing? || p.Inserting?) && p.key == k
  }

  predicate NoneBusy(s: System, k: CacheKey) {
    forall t :: t in s.threads ==> !BusyWith(s.threads[t], k)
  }

  predicate NoneStoring(s: System, k: CacheKey) {
    forall t :: t in s.threads ==> !Storing(s.threads[t], k)
  }

  /** Lookups of `k` begin while no store of it runs; stores begin while nothing on `k` runs.
      A recovery or a clearing reaches memory after its file is gone and while nothing on
      `k` runs. An oversize payload is not stored over a resident one. */
  predicate TakesTurn(config: Cache.Config, s: System, step: Step, k: CacheKey) {
    match step
    case BeginGet(_, key) => key == k ==> NoneStoring(s, k)
    case BeginPut(_, key, _) => key == k ==> NoneBusy(s, k)
    case InsertPut(t) =>
      PhaseOf(s, t).Inserting? && PhaseOf(s, t).key == k
      ==> |PhaseOf(s, t).payload| <= config.memoryBudget || k !in s.mem.entries
    case RecoverMemory(key) => key == k ==> NoneBusy(s, k) && EntryName(k) !in s.files
    case ClearMemory => NoneBusy(s, k) && EntryName(k) !in s.files
    case _ => true
  }

  /** The last completed store of `k` since it was last recovered or cleared. */
  function NextStored(s: System, step: Step, k: CacheKey, m: Option<Bytes>): Option<Bytes> {
    match step
    case InsertPut(t) => if PhaseOf(s, t).Inserting? && PhaseOf(s, t).key == k then Some(PhaseOf(s, t).payload) else m
    case RecoverMemory(key) => if key == k then None else m
    case ClearMemory => None
    case _ => m
  }

  /** What a step returns to its caller, if it is a hit. */
  function HitOf(s: System, step: Step): Option<Item> {
    match step
    case BeginGet(_, key) => if key in s.mem.entries then Some(Item(key, s.mem.entries[key].payload)) else None
    case FinishLoad(t) => if PhaseOf(s, t).Loaded? then Some(Item(PhaseOf(s, t).key, PhaseOf(s, t).payload)) else None
    case _ => None
  }

  // ---- The invariant ----

  predicate MemoryHolds(entries: Entries, k: CacheKey, m: Option<Bytes>) {
    k in entries ==> m == Some(entries[k].payload)
  }

  predicate LoadsHold(threads: map<nat, Phase>, k: CacheKey, m: Option<Bytes>) {
    forall t :: t in threads && threads[t].Loaded? && threads[t].key == k ==> m == Some(threads[t].payload)
  }

  /** A store of `k` has the key to itself. */
  predicate StoresAlone(threads: map<nat, Phase>, k: CacheKey) {
    forall t, u :: t in threads && u in threads && Storing(threads[t], k) && BusyWith(threads[u], k) ==> t == u
  }

  predicate InsertingNow(threads: map<nat, Phase>, k: CacheKey, payload: Bytes) {
    exists t :: t in threads && threads[t] == Inserting(k, payload)
  }

  predicate NoneInserting(threads: map<nat, Phase>, k: CacheKey) {
    forall t :: t in threads ==> !(threads[t].Inserting? && threads[t].key == k)
  }

  /** The disk holds the last completed store, or the one now being inserted. */
  ghost predicate DiskHolds(disk: Option<Bytes>, threads: map<nat, Phase>, k: CacheKey, m: Option<Bytes>) {
    disk.Some? ==> (NoneInserting(threads, k) && m == disk) || InsertingNow(threads, k, disk.value)
  }

  ghost function Disk(config: Cache.Config, hash: Hasher, s: System, k: CacheKey): Option<Bytes> {
    OnDisk(config, hash, s.files, k)
  }

  ghost predicate KeyInv(config: Cache.Config, hash: Hasher, s: System, k: CacheKey, m: Option<Bytes>) {
    && MemoryHolds(s.mem.entries, k, m)
    && LoadsHold(s.threads, k, m)
    && StoresAlone(s.threads, k)
    && DiskHolds(Disk(config, hash, s, k), s.threads, k, m)
  }

  // ---- Threads ----

  /** A thread that moves within a lookup, or comes to rest, disturbs nobody. */
  lemma LookupMoves(threads: map<nat, Phase>, t: nat, p: Phase, k: CacheKey, m: Option<Bytes>, disk: Option<Bytes>)
    requires StoresAlone(threads, k) && LoadsHold(threads, k, m) && DiskHolds(disk, threads, k, m)
    requires !p.Writing? && !p.Inserting? && (p.Loaded? && p.key == k ==> m == Some(p.payload))
    requires t in threads ==> !threads[t].Inserting? || threads[t].key != k
    requires BusyWith(p, k) ==> (t in threads && BusyWith(threads[t], k)) || forall u :: u in threads ==> !Storing(threads[u], k)
    ensures var after := threads[t := p];
      StoresAlone(after, k) && LoadsHold(after, k, m) && DiskHolds(disk, after, k, m)
  {
    var after := threads[t := p];
    if disk.Some? && InsertingNow(threads, k, disk.value) {
      var u :| u in threads && threads[u] == Inserting(k, disk.value);
      assert after[u] == Inserting(k, disk.value);
    }
  }

  /** A store of another key disturbs nobody here. */
  lemma OtherStoreMoves(threads: map<nat, Phase>, t: nat, p: Phase, k: CacheKey, m: Option<Bytes>, disk: Option<Bytes>)
    requires StoresAlone(threads, k) && LoadsHold(threads, k, m) && DiskHolds(disk, threads, k, m)
    requires !BusyWith(p, k) && (t in threads ==> !BusyWith(threads[t], k))
    ensures var after := threads[t := p];
      StoresAlone(after, k) && LoadsHold(after, k, m) && DiskHolds(disk, after, k, m)
  {
    var after := threads[t := p];
    if disk.Some? && InsertingNow(threads, k, disk.value) {
      var u :| u in threads && threads[u] == Inserting(k, disk.value);
      assert after[u] == Inserting(k, disk.value);
    }
  }

  // ---- Memory ----

  lemma InsertHolds(budget: nat, s: State, key: CacheKey, payload: Bytes, k: CacheKey, m: Option<Bytes>)
    requires MemoryOk(budget, s) && MemoryHolds(s.entries, k, m)
    requires key == k ==> m == Some(payload)
    ensures MemoryHolds(InsertMemory(budget, s, key, payload).entries, k, m)
  {
    InsertMemoryOk(budget, s, key, payload);
    hide MemoryOk, InsertMemory;
  }

  /** Inserting the store's own payload makes it the key's value. */
  lemma StoreHolds(budget: nat, s: State, k: CacheKey, payload: Bytes)
    requires MemoryOk(budget, s) && (|payload| <= budget || k !in s.entries)
    ensures MemoryHolds(InsertMemory(budget, s, k, payload).entries, k, Some(payload))
  {
    InsertMemoryOk(budget, s, k, payload);
    if !Fits(budget, payload) { ZeroBudget(budget, s); }
    hide MemoryOk, InsertMemory;
  }

  // ---- Steps ----

  ghost predicate Kept(config: Cache.Config, hash: Hasher, s: System, step: Step, k: CacheKey, m: Option<Bytes>)
    requires Enabled(hash, s, step)
  {
    && KeyInv(config, hash, Next(config, hash, s, step), k, NextStored(s, step, k, m))
    && (HitOf(s, step).Some? && HitOf(s, step).value.key == k ==> m == Some(HitOf(s, step).value.payload))
  }

  lemma BeginGetKept(config: Cache.Config, hash: Hasher, s: System, t: nat, key: CacheKey, k: CacheKey, m: Option<Bytes>)
    requires Enabled(hash, s, BeginGet(t, key)) && KeyInv(config, hash, s, k, m) && TakesTurn(config, s, BeginGet(t, key), k)
    ensures Kept(config, hash, s, BeginGet(t, key), k, m)
  {
    hide StoresAlone, LoadsHold, DiskHolds, OnDisk;
    LookupMoves(s.threads, t, if key in s.mem.entries then Idle else Looking(key), k, m, Disk(config, hash, s, k));
  }

  lemma ReadKept(config: Cache.Config, hash: Hasher, s: System, t: nat, k: CacheKey, m: Option<Bytes>)
    requires Enabled(hash, s, ReadDisk(t)) && KeyInv(config, hash, s, k, m)
    ensures Kept(config, hash, s, ReadDisk(t), k, m)
  {
    var key := PhaseOf(s, t).key;
    var p := AfterRead(config, hash, s.files, key);
    ReadsDisk(config, hash, s.files, key);
    if key == k && p.Loaded? {
      NoneInsertingBeside(s, t, k);
    }
    hide StoresAlone, LoadsHold, DiskHolds, OnDisk, AfterRead;
    LookupMoves(s.threads, t, p, k, m, Disk(config, hash, s, k));
  }

  lemma ReadsDisk(config: Cache.Config, hash: Hasher, files: Files, key: CacheKey)
    ensures var p := AfterRead(config, hash, files, key);
      && !p.Idle? && p.key == key && !p.Writing? && !p.Inserting?
      && (p.Loaded? ==> OnDisk(config, hash, files, key) == Some(p.payload))
  {
  }

  lemma NoneInsertingBeside(s: System, t: nat, k: CacheKey)
    requires StoresAlone(s.threads, k) && t in s.threads && BusyWith(s.threads[t], k) && !Storing(s.threads[t], k)
    ensures NoneInserting(s.threads, k) && forall payload :: !InsertingNow(s.threads, k, payload)
  {
  }

  lemma FinishLoadKept(config: Cache.Config, hash: Hasher, s: System, t: nat, k: CacheKey, m: Option<Bytes>)
    requires Enabled(hash, s, FinishLoad(t)) && KeyInv(config, hash, s, k, m) && MemoryOk(config.memoryBudget, s.mem)
    ensures Kept(config, hash, s, FinishLoad(t), k, m)
  {
    var p := PhaseOf(s, t);
    LookupMoves(s.threads, t, Idle, k, m, Disk(config, hash, s, k));
    hide MemoryOk, InsertMemory, StoresAlone, DiskHolds, OnDisk;
    OtherStatsOk(config.memoryBudget, s.mem, Cache.DiskHit(s.mem));
    InsertHolds(config.memoryBudget, Cache.DiskHit(s.mem), p.key, p.payload, k, m);
  }

  lemma RestKept(config: Cache.Config, hash: Hasher, s: System, step: Step, k: CacheKey, m: Option<Bytes>)
    requires Enabled(hash, s, step) && KeyInv(config, hash, s, k, m)
    requires step.RecordMiss? || step.RecordDropped? || step.SetInventory? || step.CountEvictions?
    ensures Kept(config, hash, s, step, k, m)
  {
    hide StoresAlone, LoadsHold, DiskHolds, OnDisk;
    if step.RecordMiss? || step.RecordDropped? {
      LookupMoves(s.threads, step.thread, Idle, k, m, Disk(config, hash, s, k));
    }
  }

  lemma FewerOnDisk(config: Cache.Config, hash: Hasher, files: Files, name: string, k: CacheKey)
    ensures OnDisk(config, hash, files - {name}, k) == None
            || OnDisk(config, hash, files - {name}, k) == OnDisk(config, hash, files, k)
  {
  }

  lemma RemoveRejectedKept(config: Cache.Config, hash: Hasher, s: System, t: nat, k: CacheKey, m: Option<Bytes>)
    requires Enabled(hash, s, RemoveRejected(t)) && KeyInv(config, hash, s, k, m)
    ensures Kept(config, hash, s, RemoveRejected(t), k, m)
  {
    var p := PhaseOf(s, t);
    FewerOnDisk(config, hash, s.files, EntryName(p.key), k);
    hide StoresAlone, LoadsHold, OnDisk;
    LookupMoves(s.threads, t, Dropped(p.key, p.size), k, m, Disk(config, hash, s, k));
  }

  lemma RemoveFileKept(config: Cache.Config, hash: Hasher, s: System, name: string, k: CacheKey, m: Option<Bytes>)
    requires KeyInv(config, hash, s, k, m)
    ensures Kept(config, hash, s, RemoveFile(name), k, m)
  {
    FewerOnDisk(config, hash, s.files, name, k);
    hide OnDisk;
  }

  lemma DamageKept(config: Cache.Config, hash: Hasher, s: System, name: string, bytes: Bytes, modified: nat, k: CacheKey, m: Option<Bytes>)
    requires Enabled(hash, s, DamageFile(name, bytes, modified)) && KeyInv(config, hash, s, k, m)
    ensures Kept(config, hash, s, DamageFile(name, bytes, modified), k, m)
  {
    if name in s.files {
      var files := s.files[name := File(bytes, modified)];
      assert OnDisk(config, hash, files, k) == None || OnDisk(config, hash, files, k) == OnDisk(config, hash, s.files, k);
    }
    hide OnDisk;
  }

  lemma RecoverKept(config: Cache.Config, hash: Hasher, s: System, key: CacheKey, k: CacheKey, m: Option<Bytes>)
    requires KeyInv(config, hash, s, k, m) && TakesTurn(config, s, RecoverMemory(key), k)
    ensures Kept(config, hash, s, RecoverMemory(key), k, m)
  {
  }

  lemma ClearKept(config: Cache.Config, hash: Hasher, s: System, k: CacheKey, m: Option<Bytes>)
    requires KeyInv(config, hash, s, k, m) && TakesTurn(config, s, ClearMemory, k)
    ensures Kept(config, hash, s, ClearMemory, k, m)
  {
  }

  lemma BeginPutKept(config: Cache.Config, hash: Hasher, s: System, t: nat, key: CacheKey, payload: Bytes, k: CacheKey, m: Option<Bytes>)
    requires Enabled(hash, s, BeginPut(t, key, payload)) && KeyInv(config, hash, s, k, m)
    requires TakesTurn(config, s, BeginPut(t, key, payload), k)
    ensures Kept(config, hash, s, BeginPut(t, key, payload), k, m)
  {
    if key == k {
      assert NoneInserting(s.threads[t := Writing(k, payload)], k);
    } else {
      OtherStoreMoves(s.threads, t, Writing(key, payload), k, m, Disk(config, hash, s, k));
      hide StoresAlone, LoadsHold, DiskHolds;
    }
    hide OnDisk;
  }

  lemma WriteFileKept(config: Cache.Config, hash: Hasher, s: System, t: nat, now: Moment, k: CacheKey, m: Option<Bytes>)
    requires Enabled(hash, s, WriteFile(t, now)) && KeyInv(config, hash, s, k, m)
    requires |PhaseOf(s, t).payload| < U64_LIMIT
    ensures Kept(config, hash, s, WriteFile(t, now), k, m)
  {
    hide OnDisk, Cache.Written, StoresAlone, LoadsHold, DiskHolds;
    var p := PhaseOf(s, t);
    WrittenOnDisk(config, hash, s.files, p.key, p.payload, now, k);
    if p.key == k {
      NoDiskNothingThere(config, hash, s.files, k);
      OwnStoreWrites(s.threads, t, k, p.payload, m, Disk(config, hash, s, k));
    } else {
      OtherStoreMoves(s.threads, t, Inserting(p.key, p.payload), k, m, Disk(config, hash, s, k));
    }
  }

  /** A store of the key that has it to itself may put its payload on disk. */
  lemma OwnStoreWrites(threads: map<nat, Phase>, t: nat, k: CacheKey, payload: Bytes, m: Option<Bytes>, disk: Option<Bytes>)
    requires t in threads && threads[t] == Writing(k, payload)
    requires StoresAlone(threads, k) && LoadsHold(threads, k, m) && DiskHolds(disk, threads, k, m)
    ensures var after := threads[t := Inserting(k, payload)];
      StoresAlone(after, k) && LoadsHold(after, k, m) && DiskHolds(Some(payload), after, k, m) && DiskHolds(None, after, k, m)
  {
    var after := threads[t := Inserting(k, payload)];
    assert after[t] == Inserting(k, payload);
    assert InsertingNow(after, k, payload);
  }

  lemma NoDiskNothingThere(config: Cache.Config, hash: Hasher, files: Files, k: CacheKey)
    ensures config.diskBudget == 0 ==> OnDisk(config, hash, files, k) == None
  {
  }

  lemma InsertPutKept(config: Cache.Config, hash: Hasher, s: System, t: nat, k: CacheKey, m: Option<Bytes>)
    requires Enabled(hash, s, InsertPut(t)) && KeyInv(config, hash, s, k, m) && MemoryOk(config.memoryBudget, s.mem)
    requires TakesTurn(config, s, InsertPut(t), k)
    ensures Kept(config, hash, s, InsertPut(t), k, m)
  {
    var p := PhaseOf(s, t);
    if p.key == k {
      StoreHolds(config.memoryBudget, s.mem, k, p.payload);
      StoreEnds(s.threads, t, k, m, Disk(config, hash, s, k));
      hide MemoryOk, InsertMemory, StoresAlone, LoadsHold, DiskHolds, OnDisk;
    } else {
      InsertHolds(config.memoryBudget, s.mem, p.key, p.payload, k, m);
      OtherStoreMoves(s.threads, t, Idle, k, m, Disk(config, hash, s, k));
      hide MemoryOk, InsertMemory, StoresAlone, LoadsHold, DiskHolds, OnDisk;
    }
  }

  /** When a store has the key to itself, its payload is what the disk can hold. */
  lemma StoreEnds(threads: map<nat, Phase>, t: nat, k: CacheKey, m: Option<Bytes>, disk: Option<Bytes>)
    requires t in threads && threads[t].Inserting? && threads[t].key == k
    requires StoresAlone(threads, k) && DiskHolds(disk, threads, k, m)
    ensures var after, stored := threads[t := Idle], Some(threads[t].payload);
      StoresAlone(after, k) && LoadsHold(after, k, stored) && DiskHolds(disk, after, k, stored)
  {
    assert Storing(threads[t], k);
    var after := threads[t := Idle];
    assert forall u :: u in threads && u != t ==> !BusyWith(threads[u], k);
  }

  /** One step of anyone. */
  lemma StepKept(config: Cache.Config, hash: Hasher, s: System, step: Step, k: CacheKey, m: Option<Bytes>)
    requires Inv(config, hash, s) && Enabled(hash, s, step) && KeyInv(config, hash, s, k, m) && TakesTurn(config, s, step, k)
    ensures Kept(config, hash, s, step, k, m)
  {
    WritingIsShort(config, hash, s);
    hide Inv, KeyInv, Kept, TakesTurn, MemoryOk, Next;
    MemoryOkOf(config, hash, s);
    match step
    case BeginGet(t, key) => BeginGetKept(config, hash, s, t, key, k, m);
    case ReadDisk(t) => ReadKept(config, hash, s, t, k, m);
    case RecordMiss(t) => RestKept(config, hash, s, step, k, m);
    case FinishLoad(t) => FinishLoadKept(config, hash, s, t, k, m);
    case RemoveRejected(t) => RemoveRejectedKept(config, hash, s, t, k, m);
    case RecordDropped(t) => RestKept(config, hash, s, step, k, m);
    case BeginPut(t, key, payload) => BeginPutKept(config, hash, s, t, key, payload, k, m);
    case WriteFile(t, now) => WriteFileKept(config, hash, s, t, now, k, m);
    case InsertPut(t) => InsertPutKept(config, hash, s, t, k, m);
    case SetInventory(_, _) => RestKept(config, hash, s, step, k, m);
    case RemoveFile(name) => RemoveFileKept(config, hash, s, name, k, m);
    case CountEvictions(_) => RestKept(config, hash, s, step, k, m);
    case RecoverMemory(key) => RecoverKept(config, hash, s, key, k, m);
    case ClearMemory => ClearKept(config, hash, s, k, m);
    case DamageFile(name, bytes, modified) => DamageKept(config, hash, s, name, bytes, modified, k, m);
  }

  lemma MemoryOkOf(config: Cache.Config, hash: Hasher, s: System)
    requires Inv(config, hash, s)
    ensures MemoryOk(config.memoryBudget, s.mem)
  {
  }

  lemma WritingIsShort(config: Cache.Config, hash: Hasher, s: System)
    requires Inv(config, hash, s)
    ensures forall t :: PhaseOf(s, t).Writing? ==> |PhaseOf(s, t).payload| < U64_LIMIT
  {
    forall t | PhaseOf(s, t).Writing? ensures |PhaseOf(s, t).payload| < U64_LIMIT {
      assert PhaseSupplied(s.threads[t], s.supplied);
    }
  }

  // ---- Whole runs ----

  ghost predicate TurnsTaken(config: Cache.Config, hash: Hasher, s: System, steps: seq<Step>, k: CacheKey)
    requires Possible(config, hash, s, steps)
    decreases |steps|
  {
    steps != [] ==> TakesTurn(config, s, steps[0], k) && TurnsTaken(config, hash, Next(config, hash, s, steps[0]), steps[1..], k)
  }

  /** The key's last completed store after a run. */
  ghost function StoredAfter(config: Cache.Config, hash: Hasher, s: System, steps: seq<Step>, k: CacheKey, m: Option<Bytes>): Option<Bytes>
    requires Possible(config, hash, s, steps)
    decreases |steps|
  {
    if steps == [] then m
    else StoredAfter(config, hash, Next(config, hash, s, steps[0]), steps[1..], k, NextStored(s, steps[0], k, m))
  }

  /** Every hit on the key, when it is returned, is the last completed store. */
  ghost predicate HitsCurrent(config: Cache.Config, hash: Hasher, s: System, steps: seq<Step>, k: CacheKey, m: Option<Bytes>)
    requires Possible(config, hash, s, steps)
    decreases |steps|
  {
    steps != [] ==>
      && (HitOf(s, steps[0]).Some? && HitOf(s, steps[0]).value.key == k ==> m == Some(HitOf(s, steps[0]).value.payload))
      && HitsCurrent(config, hash, Next(config, hash, s, steps[0]), steps[1..], k, NextStored(s, steps[0], k, m))
  }

  lemma {:induction false} TurnsAgree(config: Cache.Config, hash: Hasher, s: System, steps: seq<Step>, k: CacheKey, m: Option<Bytes>)
    requires Inv(config, hash, s) && KeyInv(config, hash, s, k, m)
    requires Possible(config, hash, s, steps) && TurnsTaken(config, hash, s, steps, k)
    ensures Inv(config, hash, After(config, hash, s, steps))
    ensures KeyInv(config, hash, After(config, hash, s, steps), k, StoredAfter(config, hash, s, steps, k, m))
    ensures HitsCurrent(config, hash, s, steps, k, m)
    decreases |steps|
  {
    if steps != [] {
      StepKept(config, hash, s, steps[0], k, m);
      StepSafe(config, hash, s, steps[0]);
      hide Inv, KeyInv, Next, Enabled, TakesTurn, NextStored, HitOf;
      TurnsAgree(config, hash, Next(config, hash, s, steps[0]), steps[1..], k, NextStored(s, steps[0], k, m));
    }
  }

  lemma StepSafe(config: Cache.Config, hash: Hasher, s: System, step: Step)
    requires Inv(config, hash, s) && Enabled(hash, s, step)
    ensures Inv(config, hash, Next(config, hash, s, step))
  {
    MemoryKept(config, hash, s, step);
    AnswersKept(config, hash, s, step);
    ProvenanceKept(config, hash, s, step);
    hide MemoryOk, Provenance, Next;
  }

  /** A store just opened on a directory, before any thread has called it. */
  ghost function Opened(config: Cache.Config, files: Files, listing: seq<string>, supplied: set<Item>): System {
    var start := Cache.Open(config, files, listing);
    System(start.mem, start.files, map[], supplied, {}, 0)
  }

  lemma OpenedHolds(config: Cache.Config, hash: Hasher, files: Files, listing: seq<string>, supplied: set<Item>, k: CacheKey)
    requires FilesSupplied(hash, files, supplied)
    ensures var s := Opened(config, files, listing, supplied);
      Inv(config, hash, s) && KeyInv(config, hash, s, k, Disk(config, hash, s, k))
  {
    hide EvictDisk, OnDisk, Inv, FileSupplied;
    OpenedIsSafe(config, hash, files, listing, supplied);
  }

  /** From the opening of any directory on: in every interleaving in which the operations on a
      key take turns, every hit on it is the last completed store at that moment, and between
      operations on it both tiers hold that store or nothing. */
  lemma TurnsAgreeFromOpening(config: Cache.Config, hash: Hasher, files: Files, listing: seq<string>, supplied: set<Item>,
                              steps: seq<Step>, k: CacheKey)
    requires FilesSupplied(hash, files, supplied)
    requires Possible(config, hash, Opened(config, files, listing, supplied), steps)
    requires TurnsTaken(config, hash, Opened(config, files, listing, supplied), steps, k)
    ensures var s := Opened(config, files, listing, supplied);
      var found := Disk(config, hash, s, k);
      var t, m := After(config, hash, s, steps), StoredAfter(config, hash, s, steps, k, found);
      && HitsCurrent(config, hash, s, steps, k, found)
      && (k in t.mem.entries ==> m == Some(t.mem.entries[k].payload))
      && (NoneBusy(t, k) && Disk(config, hash, t, k).Some? ==> m == Disk(config, hash, t, k))
  {
    hide Opened, Possible, TurnsTaken, After, StoredAfter, HitsCurrent, Disk, Inv, KeyInv, FilesSupplied;
    OpenedHolds(config, hash, files, listing, supplied, k);
    var s := Opened(config, files, listing, supplied);
    var found := Disk(config, hash, s, k);
    TurnsAgree(config, hash, s, steps, k, found);
    QuietAgrees(config, hash, After(config, hash, s, steps), k, StoredAfter(config, hash, s, steps, k, found));
  }

  lemma QuietAgrees(config: Cache.Config, hash: Hasher, s: System, k: CacheKey, m: Option<Bytes>)
    requires KeyInv(config, hash, s, k, m)
    ensures k in s.mem.entries ==> m == Some(s.mem.entries[k].payload)
    ensures NoneBusy(s, k) && Disk(config, hash, s, k).Some? ==> m == Disk(config, hash, s, k)
  {
  }

  // ---- The discipline is needed ----

  /** Two stores of one key whose files and insertions come in opposite orders. */
  function Crossing(key: CacheKey, first: Bytes, second: Bytes, now: Moment, later: Moment): seq<Step> {
    [BeginPut(1, key, first)] + ([BeginPut(2, key, second)] + CrossingTail(now, later))
  }

  function CrossingTail(now: Moment, later: Moment): seq<Step> {
    [WriteFile(1, now)] + ([WriteFile(2, later)] + CrossingEnd())
  }

  function CrossingEnd(): seq<Step> {
    [InsertPut(2)] + ([InsertPut(1)] + [])
  }

  lemma CrossingEndRuns(config: Cache.Config, hash: Hasher, s: System, key: CacheKey, first: Bytes, second: Bytes)
    requires MemoryOk(config.memoryBudget, s.mem) && Fits(config.memoryBudget, first)
    requires PhaseOf(s, 1) == Inserting(key, first) && PhaseOf(s, 2) == Inserting(key, second)
    ensures Possible(config, hash, s, CrossingEnd())
    ensures var t := After(config, hash, s, CrossingEnd());
      key in t.mem.entries && t.mem.entries[key].payload == first && t.files == s.files
  {
    hide MemoryOk, InsertMemory, Possible, After;
    InsertMemoryOk(config.memoryBudget, s.mem, key, second);
    var s1 := Next(config, hash, s, InsertPut(2));
    InsertMemoryOk(config.memoryBudget, s1.mem, key, first);
    Finished(config, hash, Next(config, hash, s1, InsertPut(1)));
    Prepend(config, hash, s1, InsertPut(1), []);
    Prepend(config, hash, s, InsertPut(2), [InsertPut(1)] + []);
  }

  lemma CrossingTailRuns(config: Cache.Config, hash: Hasher, s: System, key: CacheKey, first: Bytes, second: Bytes, now: Moment, later: Moment)
    requires MemoryOk(config.memoryBudget, s.mem) && Fits(config.memoryBudget, first) && config.diskBudget > 0
    requires |first| < U64_LIMIT && |second| < U64_LIMIT
    requires PhaseOf(s, 1) == Writing(key, first) && PhaseOf(s, 2) == Writing(key, second)
    ensures Possible(config, hash, s, CrossingTail(now, later))
    ensures var t := After(config, hash, s, CrossingTail(now, later));
      && key in t.mem.entries && t.mem.entries[key].payload == first
      && OnDisk(config, hash, t.files, key) == Some(second)
  {
    hide MemoryOk, Possible, After, CrossingEnd, OnDisk, Cache.Written;
    var s1 := Next(config, hash, s, WriteFile(1, now));
    var s2 := Next(config, hash, s1, WriteFile(2, later));
    WrittenOnDisk(config, hash, s1.files, key, second, later, key);
    CrossingEndRuns(config, hash, s2, key, first, second);
    Prepend(config, hash, s1, WriteFile(2, later), CrossingEnd());
    Prepend(config, hash, s, WriteFile(1, now), [WriteFile(2, later)] + CrossingEnd());
  }

  /** Two overlapping stores of one key can leave the first payload in memory and the second
      on disk, for good: the tiers then disagree with each other. */
  lemma CrossingStoresDisagree(config: Cache.Config, hash: Hasher, s: System, key: CacheKey, first: Bytes, second: Bytes, now: Moment, later: Moment)
    requires Inv(config, hash, s) && config.diskBudget > 0 && PhaseOf(s, 1).Idle? && PhaseOf(s, 2).Idle?
    requires Fits(config.memoryBudget, first) && |first| < U64_LIMIT && |second| < U64_LIMIT && first != second
    ensures Possible(config, hash, s, Crossing(key, first, second, now, later))
    ensures var t := After(config, hash, s, Crossing(key, first, second, now, later));
      && key in t.mem.entries && t.mem.entries[key].payload == first
      && OnDisk(config, hash, t.files, key) == Some(second)
  {
    hide MemoryOk, Provenance, Possible, After, CrossingTail, OnDisk;
    var s1 := Next(config, hash, s, BeginPut(1, key, first));
    var s2 := Next(config, hash, s1, BeginPut(2, key, second));
    CrossingTailRuns(config, hash, s2, key, first, second, now, later);
    Prepend(config, hash, s1, BeginPut(2, key, second), CrossingTail(now, later));
    Prepend(config, hash, s, BeginPut(1, key, first), [BeginPut(2, key, second)] + CrossingTail(now, later));
  }

  lemma RemoveFileIs(config: Cache.Config, hash: Hasher, s: System, name: string)
    ensures Enabled(hash, s, RemoveFile(name))
    ensures Next(config, hash, s, RemoveFile(name)) == s.(files := s.files - {name})
  {
  }

  lemma RecoverMemoryIs(config: Cache.Config, hash: Hasher, s: System, key: CacheKey)
    ensures Enabled(hash, s, RecoverMemory(key))
    ensures Next(config, hash, s, RecoverMemory(key)) == s.(mem := Recover(s.mem, key))
  {
  }

  lemma ClearMemoryIs(config: Cache.Config, hash: Hasher, s: System)
    ensures Enabled(hash, s, ClearMemory)
    ensures Next(config, hash, s, ClearMemory) == s.(mem := ClearState(s.mem))
  {
  }

  lemma Gone(config: Cache.Config, hash: Hasher, files: Files, key: CacheKey)
    ensures OnDisk(config, hash, files - {EntryName(key)}, key) == None
  {
  }

  /** A lookup that has read an entry, overtaken by the entry's recovery. */
  function Resurrection(key: CacheKey): seq<Step> {
    [RemoveFile(EntryName(key))] + ([RecoverMemory(key)] + ([FinishLoad(1)] + []))
  }

  /** A lookup overtaken by a complete recovery puts the recovered entry back into memory. */
  lemma OvertakenLookupUndoesRecovery(config: Cache.Config, hash: Hasher, s: System, key: CacheKey, payload: Bytes)
    requires MemoryOk(config.memoryBudget, s.mem) && PhaseOf(s, 1) == Loaded(key, payload) && Fits(config.memoryBudget, payload)
    ensures Possible(config, hash, s, Resurrection(key))
    ensures var t := After(config, hash, s, Resurrection(key));
      && key in t.mem.entries && t.mem.entries[key].payload == payload
      && OnDisk(config, hash, t.files, key) == None
  {
    hide MemoryOk, Possible, After, Next, Enabled, Recover, OnDisk;
    RemoveFileIs(config, hash, s, EntryName(key));
    Gone(config, hash, s.files, key);
    var s1 := Next(config, hash, s, RemoveFile(EntryName(key)));
    RecoverOk(config.memoryBudget, s1.mem, key);
    RecoverMemoryIs(config, hash, s1, key);
    var s2 := Next(config, hash, s1, RecoverMemory(key));
    LoadRuns(config, hash, s2, key, payload);
    Prepend(config, hash, s1, RecoverMemory(key), [FinishLoad(1)] + []);
    Prepend(config, hash, s, RemoveFile(EntryName(key)), [RecoverMemory(key)] + ([FinishLoad(1)] + []));
  }

  lemma LoadRuns(config: Cache.Config, hash: Hasher, s: System, key: CacheKey, payload: Bytes)
    requires MemoryOk(config.memoryBudget, s.mem) && PhaseOf(s, 1) == Loaded(key, payload) && Fits(config.memoryBudget, payload)
    ensures Possible(config, hash, s, [FinishLoad(1)] + [])
    ensures var t := After(config, hash, s, [FinishLoad(1)] + []);
      key in t.mem.entries && t.mem.entries[key].payload == payload && t.files == s.files
  {
    hide MemoryOk, InsertMemory, Possible, After;
    OtherStatsOk(config.memoryBudget, s.mem, Cache.DiskHit(s.mem));
    InsertMemoryOk(config.memoryBudget, Cache.DiskHit(s.mem), key, payload);
    Finished(config, hash, Next(config, hash, s, FinishLoad(1)));
    Prepend(config, hash, s, FinishLoad(1), []);
  }

  /** A lookup that has read an entry, overtaken by a clearing. */
  function Clearance(key: CacheKey): seq<Step> {
    [RemoveFile(EntryName(key))] + ([ClearMemory] + ([FinishLoad(1)] + []))
  }

  /** A lookup overtaken by a complete clearing puts a cleared entry back into memory. */
  lemma OvertakenLookupUndoesClearing(config: Cache.Config, hash: Hasher, s: System, key: CacheKey, payload: Bytes)
    requires MemoryOk(config.memoryBudget, s.mem) && PhaseOf(s, 1) == Loaded(key, payload) && Fits(config.memoryBudget, payload)
    ensures Possible(config, hash, s, Clearance(key))
    ensures var t := After(config, hash, s, Clearance(key));
      && key in t.mem.entries && t.mem.entries[key].payload == payload
      && OnDisk(config, hash, t.files, key) == None
  {
    hide MemoryOk, Possible, After, Next, Enabled, OnDisk;
    RemoveFileIs(config, hash, s, EntryName(key));
    Gone(config, hash, s.files, key);
    var s1 := Next(config, hash, s, RemoveFile(EntryName(key)));
    EmptyOk(config.memoryBudget, ClearState(s1.mem));
    ClearMemoryIs(config, hash, s1);
    var s2 := Next(config, hash, s1, ClearMemory);
    LoadRuns(config, hash, s2, key, payload);
    Prepend(config, hash, s1, ClearMemory, [FinishLoad(1)] + []);
    Prepend(config, hash, s, RemoveFile(EntryName(key)), [ClearMemory] + ([FinishLoad(1)] + []));
  }

  /** A lookup that begins while a store is running and outlasts it. */
  function Straddling(key: CacheKey, now: Moment): seq<Step> {
    [BeginGet(1, key)] + ([ReadDisk(1)] + ([WriteFile(2, now)] + StraddlingEnd()))
  }

  function StraddlingEnd(): seq<Step> {
    [InsertPut(2)] + ([FinishLoad(1)] + [])
  }

  lemma StraddlingWrites(config: Cache.Config, hash: Hasher, s: System, key: CacheKey, older: Bytes, newer: Bytes, now: Moment)
    requires MemoryOk(config.memoryBudget, s.mem) && config.diskBudget > 0 && Fits(config.memoryBudget, older)
    requires PhaseOf(s, 1) == Loaded(key, older) && PhaseOf(s, 2) == Writing(key, newer) && |newer| < U64_LIMIT
    ensures Possible(config, hash, s, [WriteFile(2, now)] + StraddlingEnd())
    ensures var t := After(config, hash, s, [WriteFile(2, now)] + StraddlingEnd());
      && key in t.mem.entries && t.mem.entries[key].payload == older
      && OnDisk(config, hash, t.files, key) == Some(newer)
  {
    hide MemoryOk, Possible, After, OnDisk, Cache.Written;
    var s1 := Next(config, hash, s, WriteFile(2, now));
    WrittenOnDisk(config, hash, s.files, key, newer, now, key);
    WrittenOvertakes(config, hash, s1, key, older, newer);
    Prepend(config, hash, s, WriteFile(2, now), StraddlingEnd());
  }

  lemma StraddlingReads(config: Cache.Config, hash: Hasher, s: System, key: CacheKey, older: Bytes)
    requires PhaseOf(s, 1).Idle? && key !in s.mem.entries && OnDisk(config, hash, s.files, key) == Some(older)
    ensures var s1 := Next(config, hash, s, BeginGet(1, key));
      && Enabled(hash, s1, ReadDisk(1))
      && var s2 := Next(config, hash, s1, ReadDisk(1));
         && PhaseOf(s2, 1) == Loaded(key, older) && PhaseOf(s2, 2) == PhaseOf(s, 2)
         && s2.mem == Touch(s.mem, key) && s2.files == s.files
  {
  }

  /** A lookup that begins during a store can leave the old payload in memory and the new one
      on disk, although it began before anything was stored. */
  lemma LookupDuringStoreDisagrees(config: Cache.Config, hash: Hasher, s: System, key: CacheKey, older: Bytes, newer: Bytes, now: Moment)
    requires MemoryOk(config.memoryBudget, s.mem) && config.diskBudget > 0 && Fits(config.memoryBudget, older)
    requires PhaseOf(s, 1).Idle? && PhaseOf(s, 2) == Writing(key, newer) && |newer| < U64_LIMIT
    requires key !in s.mem.entries && OnDisk(config, hash, s.files, key) == Some(older)
    ensures Possible(config, hash, s, Straddling(key, now))
    ensures var t := After(config, hash, s, Straddling(key, now));
      && key in t.mem.entries && t.mem.entries[key].payload == older
      && OnDisk(config, hash, t.files, key) == Some(newer)
  {
    hide MemoryOk, Possible, After, OnDisk, Next, StraddlingEnd, Touch;
    StraddlingReads(config, hash, s, key, older);
    TouchOk(config.memoryBudget, s.mem, key);
    var s1 := Next(config, hash, s, BeginGet(1, key));
    var s2 := Next(config, hash, s1, ReadDisk(1));
    StraddlingWrites(config, hash, s2, key, older, newer, now);
    Prepend(config, hash, s1, ReadDisk(1), [WriteFile(2, now)] + StraddlingEnd());
    Prepend(config, hash, s, BeginGet(1, key), [ReadDisk(1)] + ([WriteFile(2, now)] + StraddlingEnd()));
  }
}
