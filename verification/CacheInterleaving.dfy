/** Concurrent use of one cache: lookups and stores of many threads, interleaved between
    the locked sections and the file operations. Inventory refreshes, disk evictions,
    recoveries and clearings are steps that may happen at any moment. */
module CacheInterleaving {
  import opened Wrappers
  import opened ByteStrings
  import opened KeyCodec
  import opened EntryCodec
  import opened FiniteMaps
  import opened MemoryTier
  import opened DiskTier
  import Cache
  import CacheRuns

  /** Where one thread is between its atomic steps. */
  datatype Phase =
    | Idle
    | Looking(key: CacheKey)                     // not in memory, lock released
    | Missing(key: CacheKey)                     // nothing on disk, miss not yet recorded
    | Loaded(key: CacheKey, payload: Bytes)      // read and validated, not yet inserted
    | Rejected(key: CacheKey, size: nat)         // read and refused, file not yet removed
    | Dropped(key: CacheKey, size: nat)          // file removed, not yet recorded
    | Writing(key: CacheKey, payload: Bytes)     // store begun
    | Inserting(key: CacheKey, payload: Bytes)   // file in place, memory not yet updated

  datatype Item = Item(key: CacheKey, payload: Bytes)

  /** `supplied`: everything any store was called with. `served`: every hit returned.
      `started`: lookups begun. */
  datatype System = System(mem: State, files: Files, threads: map<nat, Phase>,
                           supplied: set<Item>, served: set<Item>, started: nat)

  datatype Step =
    | BeginGet(thread: nat, key: CacheKey)
    | ReadDisk(thread: nat)
    | RecordMiss(thread: nat)
    | FinishLoad(thread: nat)
    | RemoveRejected(thread: nat)
    | RecordDropped(thread: nat)
    | BeginPut(thread: nat, key: CacheKey, payload: Bytes)
    | WriteFile(thread: nat, now: Moment)
    | InsertPut(thread: nat)
    | SetInventory(total: nat, count: nat)
    | RemoveFile(name: string)
    | CountEvictions(count: nat)
    | RecoverMemory(key: CacheKey)
    | ClearMemory
    | DamageFile(name: string, bytes: Bytes, modified: nat)

  function PhaseOf(s: System, thread: nat): Phase {
    if thread in s.threads then s.threads[thread] else Idle
  }

  ghost predicate Enabled(hash: Hasher, s: System, step: Step) {
    match step
    case BeginGet(t, _) => PhaseOf(s, t).Idle?
    case ReadDisk(t) => PhaseOf(s, t).Looking?
    case RecordMiss(t) => PhaseOf(s, t).Missing?
    case FinishLoad(t) => PhaseOf(s, t).Loaded?
    case RemoveRejected(t) => PhaseOf(s, t).Rejected?
    case RecordDropped(t) => PhaseOf(s, t).Dropped?
    case BeginPut(t, _, payload) => PhaseOf(s, t).Idle? && |payload| < U64_LIMIT
    case WriteFile(t, _) => PhaseOf(s, t).Writing?
    case InsertPut(t) => PhaseOf(s, t).Inserting?
    case DamageFile(name, bytes, _) => forall k :: EntryName(k) == name ==> DecodeEntry(hash, k, bytes) == None
    case _ => true
  }

  function Move(s: System, thread: nat, phase: Phase): System {
    s.(threads := s.threads[thread := phase])
  }

  /** What a lookup does with the directory after releasing the lock. */
  function AfterRead(config: Cache.Config, hash: Hasher, files: Files, key: CacheKey): Phase {
    if config.diskBudget == 0 || EntryName(key) !in files then Missing(key)
    else match DecodeEntry(hash, key, files[EntryName(key)].bytes)
      case None => Rejected(key, |files[EntryName(key)].bytes|)
      case Some(payload) => Loaded(key, payload)
  }

  ghost function Next(config: Cache.Config, hash: Hasher, s: System, step: Step): System
    requires Enabled(hash, s, step)
  {
    match step
    case BeginGet(t, key) =>
      var touched := s.(mem := Touch(s.mem, key), started := s.started + 1);
      if key in s.mem.entries then
        Move(touched.(served := s.served + {Item(key, s.mem.entries[key].payload)}), t, Idle)
      else
        Move(touched, t, Looking(key))
    case ReadDisk(t) => Move(s, t, AfterRead(config, hash, s.files, PhaseOf(s, t).key))
    case RecordMiss(t) => Move(s.(mem := Cache.Missed(s.mem)), t, Idle)
    case FinishLoad(t) =>
      var p := PhaseOf(s, t);
      Move(s.(mem := InsertMemory(config.memoryBudget, Cache.DiskHit(s.mem), p.key, p.payload),
              served := s.served + {Item(p.key, p.payload)}), t, Idle)
    case RemoveRejected(t) =>
      var p := PhaseOf(s, t);
      Move(s.(files := s.files - {EntryName(p.key)}), t, Dropped(p.key, p.size))
    case RecordDropped(t) => Move(s.(mem := Cache.DroppedCorrupt(s.mem, PhaseOf(s, t).size)), t, Idle)
    case BeginPut(t, key, payload) =>
      Move(s.(supplied := s.supplied + {Item(key, payload)}), t, Writing(key, payload))
    case WriteFile(t, now) =>
      var p := PhaseOf(s, t);
      Move(s.(files := Cache.Written(config, hash, s.files, p.key, p.payload, now)), t, Inserting(p.key, p.payload))
    case InsertPut(t) =>
      var p := PhaseOf(s, t);
      Move(s.(mem := InsertMemory(config.memoryBudget, s.mem, p.key, p.payload)), t, Idle)
    case SetInventory(total, count) =>
      s.(mem := s.mem.(stats := s.mem.stats.(diskBytes := total, diskEntries := count)))
    case RemoveFile(name) => s.(files := s.files - {name})
    case CountEvictions(count) => s.(mem := Cache.AddEvictions(s.mem, count))
    case RecoverMemory(key) => s.(mem := Recover(s.mem, key))
    case ClearMemory => s.(mem := ClearState(s.mem))
    case DamageFile(name, bytes, modified) =>
      if name in s.files then s.(files := s.files[name := File(bytes, modified)]) else s
  }

  // ---- Invariants of every interleaving ----

  predicate InLookup(p: Phase) {
    p.Looking? || p.Missing? || p.Loaded? || p.Rejected? || p.Dropped?
  }

  ghost function InFlight(s: System): nat {
    Count(s.threads, InLookup)
  }

  function Answered(stats: Stats): nat {
    stats.memoryHits + stats.diskHits + stats.misses
  }

  /** Everything held anywhere, or returned, was supplied by some store for that very key. */
  ghost predicate Provenance(hash: Hasher, s: System) {
    && MemorySupplied(s.mem.entries, s.supplied)
    && FilesSupplied(hash, s.files, s.supplied)
    && ThreadsSupplied(s.threads, s.supplied)
    && s.served <= s.supplied
  }

  ghost predicate FilesSupplied(hash: Hasher, files: Files, supplied: set<Item>) {
    forall k :: EntryName(k) in files ==> FileSupplied(hash, files[EntryName(k)], k, supplied)
  }

  ghost predicate FileSupplied(hash: Hasher, file: File, key: CacheKey, supplied: set<Item>) {
    var decoded := DecodeEntry(hash, key, file.bytes);
    decoded.Some? ==> Item(key, decoded.value) in supplied
  }

  predicate PhaseSupplied(p: Phase, supplied: set<Item>) {
    match p
    case Loaded(k, payload) => Item(k, payload) in supplied
    case Writing(k, payload) => Item(k, payload) in supplied && |payload| < U64_LIMIT
    case Inserting(k, payload) => Item(k, payload) in supplied
    case _ => true
  }

  ghost predicate Inv(config: Cache.Config, hash: Hasher, s: System) {
    && MemoryOk(config.memoryBudget, s.mem)
    && Provenance(hash, s)
    && Answered(s.mem.stats) + InFlight(s) == s.started
  }

  lemma MemoryKept(config: Cache.Config, hash: Hasher, s: System, step: Step)
    requires Enabled(hash, s, step) && MemoryOk(config.memoryBudget, s.mem)
    ensures MemoryOk(config.memoryBudget, Next(config, hash, s, step).mem)
  {
    hide MemoryOk, InsertMemory;
    var budget := config.memoryBudget;
    match step
    case BeginGet(_, key) => TouchOk(budget, s.mem, key);
    case RecordMiss(_) => CacheRuns.OtherStatsOk(budget, s.mem, Cache.Missed(s.mem));
    case FinishLoad(t) =>
      CacheRuns.OtherStatsOk(budget, s.mem, Cache.DiskHit(s.mem));
      InsertMemoryOk(budget, Cache.DiskHit(s.mem), PhaseOf(s, t).key, PhaseOf(s, t).payload);
    case RecordDropped(t) => CacheRuns.OtherStatsOk(budget, s.mem, Next(config, hash, s, step).mem);
    case InsertPut(t) => InsertMemoryOk(budget, s.mem, PhaseOf(s, t).key, PhaseOf(s, t).payload);
    case SetInventory(_, _) => CacheRuns.OtherStatsOk(budget, s.mem, Next(config, hash, s, step).mem);
    case CountEvictions(_) => CacheRuns.OtherStatsOk(budget, s.mem, Next(config, hash, s, step).mem);
    case RecoverMemory(key) => RecoverOk(budget, s.mem, key);
    case ClearMemory => EmptyOk(budget, ClearState(s.mem));
    case _ =>
  }

  /** One thread moves; its share of the lookups in flight moves with it. */
  lemma InFlightMoves(s: System, n: System, thread: nat, phase: Phase)
    requires n.threads == s.threads[thread := phase]
    ensures InFlight(n) == InFlight(s) - (if InLookup(PhaseOf(s, thread)) then 1 else 0) + (if InLookup(phase) then 1 else 0)
  {
    CountUpdate(s.threads, thread, phase, InLookup);
  }

  lemma AnswersKept(config: Cache.Config, hash: Hasher, s: System, step: Step)
    requires Enabled(hash, s, step) && MemoryOk(config.memoryBudget, s.mem)
    requires Answered(s.mem.stats) + InFlight(s) == s.started
    ensures var n := Next(config, hash, s, step); Answered(n.mem.stats) + InFlight(n) == n.started
  {
    hide MemoryOk, InsertMemory, InFlight;
    var n := Next(config, hash, s, step);
    match step
    case SetInventory(_, _) => SameThreads(s, n);
    case RemoveFile(_) => SameThreads(s, n);
    case CountEvictions(_) => SameThreads(s, n);
    case RecoverMemory(_) => SameThreads(s, n);
    case ClearMemory => SameThreads(s, n);
    case DamageFile(_, _, _) => SameThreads(s, n);
    case FinishLoad(t) =>
      InFlightMoves(s, n, t, n.threads[t]);
      CacheRuns.OtherStatsOk(config.memoryBudget, s.mem, Cache.DiskHit(s.mem));
      InsertMemoryOk(config.memoryBudget, Cache.DiskHit(s.mem), PhaseOf(s, t).key, PhaseOf(s, t).payload);
    case InsertPut(t) =>
      InFlightMoves(s, n, t, n.threads[t]);
      InsertMemoryOk(config.memoryBudget, s.mem, PhaseOf(s, t).key, PhaseOf(s, t).payload);
    case _ => InFlightMoves(s, n, step.thread, n.threads[step.thread]);
  }

  lemma SameThreads(s: System, n: System)
    requires s.threads == n.threads
    ensures InFlight(s) == InFlight(n)
  {
  }

  lemma InsertSupplied(budget: nat, s: State, key: CacheKey, payload: Bytes, supplied: set<Item>)
    requires MemoryOk(budget, s) && Item(key, payload) in supplied
    requires MemorySupplied(s.entries, supplied)
    ensures MemorySupplied(InsertMemory(budget, s, key, payload).entries, supplied)
  {
    InsertMemoryOk(budget, s, key, payload);
    hide InsertMemory, MemoryOk;
  }

  lemma WrittenSupplied(config: Cache.Config, hash: Hasher, files: Files, key: CacheKey, payload: Bytes, now: Moment, supplied: set<Item>)
    requires FilesSupplied(hash, files, supplied) && Item(key, payload) in supplied && |payload| < U64_LIMIT
    ensures FilesSupplied(hash, Cache.Written(config, hash, files, key, payload, now), supplied)
  {
    TemporaryIsForeign(key, now.process);
    var after := Cache.Written(config, hash, files, key, payload, now);
    EntryExact(hash, key, Encoded(hash, key, payload), payload);
    forall k | EntryName(k) in after ensures FileSupplied(hash, after[EntryName(k)], k, supplied) {
      EntryNameFaithful(key, k);
      if config.diskBudget == 0 || k != key { assert FileSupplied(hash, files[EntryName(k)], k, supplied); }
    }
  }

  lemma FewerSupplied(hash: Hasher, files: Files, name: string, supplied: set<Item>)
    requires FilesSupplied(hash, files, supplied)
    ensures FilesSupplied(hash, files - {name}, supplied)
  {
    forall k | EntryName(k) in files - {name} ensures FileSupplied(hash, (files - {name})[EntryName(k)], k, supplied) {
      assert FileSupplied(hash, files[EntryName(k)], k, supplied);
    }
  }

  lemma MoreSupplied(hash: Hasher, s: System, item: Item)
    requires Provenance(hash, s)
    ensures Provenance(hash, s.(supplied := s.supplied + {item}))
  {
    forall k | EntryName(k) in s.files ensures FileSupplied(hash, s.files[EntryName(k)], k, s.supplied + {item}) {
      assert FileSupplied(hash, s.files[EntryName(k)], k, s.supplied);
    }
    forall t | t in s.threads ensures PhaseSupplied(s.threads[t], s.supplied + {item}) {
      assert PhaseSupplied(s.threads[t], s.supplied);
    }
  }

  lemma DamageSupplied(hash: Hasher, files: Files, name: string, bytes: Bytes, modified: nat, supplied: set<Item>)
    requires FilesSupplied(hash, files, supplied)
    requires forall k :: EntryName(k) == name ==> DecodeEntry(hash, k, bytes) == None
    ensures FilesSupplied(hash, files[name := File(bytes, modified)], supplied)
  {
    var after := files[name := File(bytes, modified)];
    forall k | EntryName(k) in after ensures FileSupplied(hash, after[EntryName(k)], k, supplied) {
      if EntryName(k) != name { assert FileSupplied(hash, files[EntryName(k)], k, supplied); }
    }
  }

  ghost predicate MemorySupplied(entries: Entries, supplied: set<Item>) {
    forall k :: k in entries ==> Item(k, entries[k].payload) in supplied
  }

  ghost predicate ThreadsSupplied(threads: map<nat, Phase>, supplied: set<Item>) {
    forall t :: t in threads ==> PhaseSupplied(threads[t], supplied)
  }

  /** Steps of a lookup. */
  lemma LookupProvenance(config: Cache.Config, hash: Hasher, s: System, step: Step)
    requires Enabled(hash, s, step) && MemoryOk(config.memoryBudget, s.mem) && Provenance(hash, s)
    requires step.BeginGet? || step.ReadDisk? || step.RecordMiss? || step.FinishLoad? || step.RemoveRejected? || step.RecordDropped?
    ensures Provenance(hash, Next(config, hash, s, step))
  {
    hide MemoryOk, InsertMemory, FilesSupplied;
    if step.FinishLoad? {
      LoadProvenance(config, hash, s, step.thread);
    } else if step.ReadDisk? {
      ReadSupplied(config, hash, s.files, PhaseOf(s, step.thread).key, s.supplied);
    } else if step.RemoveRejected? {
      FewerSupplied(hash, s.files, EntryName(PhaseOf(s, step.thread).key), s.supplied);
    }
  }

  lemma LoadProvenance(config: Cache.Config, hash: Hasher, s: System, t: nat)
    requires PhaseOf(s, t).Loaded? && MemoryOk(config.memoryBudget, s.mem) && Provenance(hash, s)
    ensures Provenance(hash, Next(config, hash, s, FinishLoad(t)))
  {
    hide MemoryOk, InsertMemory, FilesSupplied;
    var p := PhaseOf(s, t);
    CacheRuns.OtherStatsOk(config.memoryBudget, s.mem, Cache.DiskHit(s.mem));
    InsertSupplied(config.memoryBudget, Cache.DiskHit(s.mem), p.key, p.payload, s.supplied);
  }

  /** Steps of a store. */
  lemma StoreProvenance(config: Cache.Config, hash: Hasher, s: System, step: Step)
    requires Enabled(hash, s, step) && MemoryOk(config.memoryBudget, s.mem) && Provenance(hash, s)
    requires step.BeginPut? || step.WriteFile? || step.InsertPut?
    ensures Provenance(hash, Next(config, hash, s, step))
  {
    hide MemoryOk, InsertMemory, FilesSupplied;
    match step
    case BeginPut(t, key, payload) => MoreSupplied(hash, s, Item(key, payload));
    case WriteFile(t, now) =>
      var p := PhaseOf(s, t);
      WrittenSupplied(config, hash, s.files, p.key, p.payload, now, s.supplied);
    case InsertPut(t) =>
      var p := PhaseOf(s, t);
      InsertSupplied(config.memoryBudget, s.mem, p.key, p.payload, s.supplied);
  }

  lemma ProvenanceKept(config: Cache.Config, hash: Hasher, s: System, step: Step)
    requires Enabled(hash, s, step) && MemoryOk(config.memoryBudget, s.mem) && Provenance(hash, s)
    ensures Provenance(hash, Next(config, hash, s, step))
  {
    hide MemoryOk, InsertMemory, FilesSupplied, ThreadsSupplied;
    match step
    case SetInventory(_, _) =>
    case CountEvictions(_) =>
    case ClearMemory =>
    case RemoveFile(name) => FewerSupplied(hash, s.files, name, s.supplied);
    case RecoverMemory(key) => RecoverOk(config.memoryBudget, s.mem, key);
    case DamageFile(name, bytes, modified) =>
      if name in s.files { DamageSupplied(hash, s.files, name, bytes, modified, s.supplied); }
    case _ =>
      hide Next, Provenance, Enabled;
      if step.BeginPut? || step.WriteFile? || step.InsertPut? {
        StoreProvenance(config, hash, s, step);
      } else {
        LookupProvenance(config, hash, s, step);
      }
  }

  lemma ReadSupplied(config: Cache.Config, hash: Hasher, files: Files, key: CacheKey, supplied: set<Item>)
    requires FilesSupplied(hash, files, supplied)
    ensures PhaseSupplied(AfterRead(config, hash, files, key), supplied)
  {
    if EntryName(key) in files { assert FileSupplied(hash, files[EntryName(key)], key, supplied); }
  }

  /** A run in which every step is enabled when it is taken. */
  ghost predicate Possible(config: Cache.Config, hash: Hasher, s: System, steps: seq<Step>)
    decreases |steps|
  {
    steps == [] || (Enabled(hash, s, steps[0]) && Possible(config, hash, Next(config, hash, s, steps[0]), steps[1..]))
  }

  ghost function After(config: Cache.Config, hash: Hasher, s: System, steps: seq<Step>): System
    requires Possible(config, hash, s, steps)
    decreases |steps|
  {
    if steps == [] then s else After(config, hash, Next(config, hash, s, steps[0]), steps[1..])
  }

  /** In every interleaving: the memory tier's accounting is exact and within budget; every
      payload held or returned was supplied by some store for exactly that key; and hits
      plus misses plus lookups still in flight equal the lookups begun. */
  lemma {:induction false} EveryInterleavingSafe(config: Cache.Config, hash: Hasher, s: System, steps: seq<Step>)
    requires Inv(config, hash, s) && Possible(config, hash, s, steps)
    ensures Inv(config, hash, After(config, hash, s, steps))
    decreases |steps|
  {
    if steps != [] {
      MemoryKept(config, hash, s, steps[0]);
      AnswersKept(config, hash, s, steps[0]);
      ProvenanceKept(config, hash, s, steps[0]);
      hide MemoryOk, Provenance, Next, Enabled;
      EveryInterleavingSafe(config, hash, Next(config, hash, s, steps[0]), steps[1..]);
    }
  }

  /** A freshly opened store is such a state, counting the entries it finds as supplied. */
  lemma OpenedIsSafe(config: Cache.Config, hash: Hasher, files: Files, listing: seq<string>, supplied: set<Item>)
    requires FilesSupplied(hash, files, supplied)
    ensures var start := Cache.Open(config, files, listing);
      Inv(config, hash, System(start.mem, start.files, map[], supplied, {}, 0))
  {
    hide EvictDisk, FileSupplied, MemoryOk;
    var start := Cache.Open(config, files, listing);
    EvictDiskScope(files, listing, config.diskBudget);
    EmptyOk(config.memoryBudget, start.mem);
    var none: map<nat, Phase> := map[];
    assert Hits(none, InLookup) == {};
  }

  lemma Prepend(config: Cache.Config, hash: Hasher, s: System, step: Step, rest: seq<Step>)
    requires Enabled(hash, s, step) && Possible(config, hash, Next(config, hash, s, step), rest)
    ensures Possible(config, hash, s, [step] + rest)
    ensures After(config, hash, s, [step] + rest) == After(config, hash, Next(config, hash, s, step), rest)
  {
    assert ([step] + rest)[1..] == rest;
  }

  /** Thread 1 looks a key up; thread 2 stores a new payload in between. */
  function Overtaking(key: CacheKey, newer: Bytes, now: Moment): seq<Step> {
    [BeginGet(1, key)] + ([ReadDisk(1)] + OvertakingTail(key, newer, now))
  }

  function OvertakingTail(key: CacheKey, newer: Bytes, now: Moment): seq<Step> {
    [BeginPut(2, key, newer)] + ([WriteFile(2, now)] + ([InsertPut(2)] + ([FinishLoad(1)] + [])))
  }

  lemma OvertakingTailRuns(config: Cache.Config, hash: Hasher, s: System, key: CacheKey, older: Bytes, newer: Bytes, now: Moment)
    requires MemoryOk(config.memoryBudget, s.mem) && config.diskBudget > 0
    requires PhaseOf(s, 1) == Loaded(key, older) && PhaseOf(s, 2).Idle?
    requires Fits(config.memoryBudget, older) && |newer| < U64_LIMIT
    ensures Possible(config, hash, s, OvertakingTail(key, newer, now))
    ensures var t := After(config, hash, s, OvertakingTail(key, newer, now));
      && key in t.mem.entries && t.mem.entries[key].payload == older
      && CacheRuns.OnDisk(config, hash, t.files, key) == Some(newer)
  {
    hide MemoryOk, InsertMemory, Possible, After;
    var s1 := Next(config, hash, s, BeginPut(2, key, newer));
    var s2 := Next(config, hash, s1, WriteFile(2, now));
    EntryExact(hash, key, Encoded(hash, key, newer), newer);
    WrittenOvertakes(config, hash, s2, key, older, newer);
    Prepend(config, hash, s1, WriteFile(2, now), [InsertPut(2)] + ([FinishLoad(1)] + []));
    Prepend(config, hash, s, BeginPut(2, key, newer), [WriteFile(2, now)] + ([InsertPut(2)] + ([FinishLoad(1)] + [])));
  }

  lemma WrittenOvertakes(config: Cache.Config, hash: Hasher, s: System, key: CacheKey, older: Bytes, newer: Bytes)
    requires MemoryOk(config.memoryBudget, s.mem) && Fits(config.memoryBudget, older)
    requires PhaseOf(s, 1) == Loaded(key, older) && PhaseOf(s, 2) == Inserting(key, newer)
    ensures var steps := [InsertPut(2)] + ([FinishLoad(1)] + []);
      && Possible(config, hash, s, steps)
      && var t := After(config, hash, s, steps);
         key in t.mem.entries && t.mem.entries[key].payload == older && t.files == s.files
  {
    hide MemoryOk, InsertMemory, Possible, After;
    InsertMemoryOk(config.memoryBudget, s.mem, key, newer);
    var s1 := Next(config, hash, s, InsertPut(2));
    CacheRuns.OtherStatsOk(config.memoryBudget, s1.mem, Cache.DiskHit(s1.mem));
    InsertMemoryOk(config.memoryBudget, Cache.DiskHit(s1.mem), key, older);
    Finished(config, hash, Next(config, hash, s1, FinishLoad(1)));
    Prepend(config, hash, s1, FinishLoad(1), []);
    Prepend(config, hash, s, InsertPut(2), [FinishLoad(1)] + []);
  }

  lemma Finished(config: Cache.Config, hash: Hasher, s: System)
    ensures Possible(config, hash, s, []) && After(config, hash, s, []) == s
  {
  }

  /** Agreement with the last store is a sequential property only. A lookup that has read
      the old entry, overtaken by a complete store of a new payload, puts the old payload
      back into memory although the disk holds the new one. */
  lemma OvertakenLookupRestoresOldPayload(config: Cache.Config, hash: Hasher, s: System, key: CacheKey, older: Bytes, newer: Bytes, now: Moment)
    requires Inv(config, hash, s) && config.diskBudget > 0
    requires key !in s.mem.entries && PhaseOf(s, 1).Idle? && PhaseOf(s, 2).Idle?
    requires EntryName(key) in s.files && s.files[EntryName(key)].bytes == Encoded(hash, key, older)
    requires Fits(config.memoryBudget, older) && |older| < U64_LIMIT && |newer| < U64_LIMIT
    ensures Possible(config, hash, s, Overtaking(key, newer, now))
    ensures var t := After(config, hash, s, Overtaking(key, newer, now));
      && key in t.mem.entries && t.mem.entries[key].payload == older
      && CacheRuns.OnDisk(config, hash, t.files, key) == Some(newer)
  {
    hide MemoryOk, InsertMemory, Provenance, Possible, After;
    EntryExact(hash, key, Encoded(hash, key, older), older);
    MemoryKept(config, hash, s, BeginGet(1, key));
    var s1 := Next(config, hash, s, BeginGet(1, key));
    var s2 := Next(config, hash, s1, ReadDisk(1));
    OvertakingTailRuns(config, hash, s2, key, older, newer, now);
    Prepend(config, hash, s1, ReadDisk(1), OvertakingTail(key, newer, now));
    Prepend(config, hash, s, BeginGet(1, key), [ReadDisk(1)] + OvertakingTail(key, newer, now));
  }
}
