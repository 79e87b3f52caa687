/** The interleaved steps of a thread that nobody interrupts do exactly what the sequential
    operation does, so what is proved of the operations holds of undisturbed threads. */
module CacheSequential {
  import opened Wrappers
  import opened ByteStrings
  import opened KeyCodec
  import opened EntryCodec
  import opened MemoryTier
  import opened DiskTier
  import opened CacheInterleaving
  import Cache

  function StoreOf(s: System): Cache.Store {
    Cache.Store(s.mem, s.files)
  }

  /** The steps of one lookup of an idle thread. */
  ghost function LookupSteps(config: Cache.Config, hash: Hasher, s: System, thread: nat, key: CacheKey): seq<Step> {
    if key in s.mem.entries then [BeginGet(thread, key)] + []
    else [BeginGet(thread, key)] + ([ReadDisk(thread)] + AnswerSteps(AfterRead(config, hash, s.files, key), thread))
  }

  function AnswerSteps(phase: Phase, thread: nat): seq<Step> {
    match phase
    case Loaded(_, _) => [FinishLoad(thread)] + []
    case Rejected(_, _) => [RemoveRejected(thread)] + ([RecordDropped(thread)] + [])
    case _ => [RecordMiss(thread)] + []
  }

  function ServedBy(key: CacheKey, hit: Option<Cache.Hit>): set<Item> {
    if hit == None then {} else {Item(key, hit.value.payload)}
  }

  /** The system after one more lookup by this thread. */
  ghost function LookedUp(config: Cache.Config, hash: Hasher, s: System, thread: nat, key: CacheKey): System {
    var r := Cache.Get(config, hash, StoreOf(s), key);
    System(r.store.mem, r.store.files, s.threads[thread := Idle], s.supplied, s.served + ServedBy(key, r.hit), s.started + 1)
  }

  lemma OneStep(config: Cache.Config, hash: Hasher, s: System, step: Step)
    requires Enabled(hash, s, step)
    ensures Possible(config, hash, s, [step] + []) && After(config, hash, s, [step] + []) == Next(config, hash, s, step)
  {
    hide Next, Enabled;
    Finished(config, hash, Next(config, hash, s, step));
    Prepend(config, hash, s, step, []);
  }

  lemma AnswerRuns(config: Cache.Config, hash: Hasher, s: System, thread: nat, phase: Phase)
    requires PhaseOf(s, thread) == phase && (phase.Loaded? || phase.Rejected? || phase.Missing?)
    ensures Possible(config, hash, s, AnswerSteps(phase, thread))
    ensures var t := After(config, hash, s, AnswerSteps(phase, thread));
      t == match phase
        case Loaded(key, payload) =>
          s.(mem := InsertMemory(config.memoryBudget, Cache.DiskHit(s.mem), key, payload),
             served := s.served + {Item(key, payload)}, threads := s.threads[thread := Idle])
        case Rejected(key, size) =>
          s.(mem := Cache.DroppedCorrupt(s.mem, size), files := s.files - {EntryName(key)}, threads := s.threads[thread := Idle])
        case _ => s.(mem := Cache.Missed(s.mem), threads := s.threads[thread := Idle])
  {
    hide Possible, After, InsertMemory;
    match phase
    case Loaded(key, payload) => OneStep(config, hash, s, FinishLoad(thread));
    case Rejected(key, size) =>
      var m := Next(config, hash, s, RemoveRejected(thread));
      OneStep(config, hash, m, RecordDropped(thread));
      Prepend(config, hash, s, RemoveRejected(thread), [RecordDropped(thread)] + []);
      assert s.threads[thread := Dropped(key, size)][thread := Idle] == s.threads[thread := Idle];
    case _ => OneStep(config, hash, s, RecordMiss(thread));
  }

  /** An undisturbed lookup is `Get`: the same memory, files and statistics, and exactly its hit is
      served. */
  lemma LookupAlone(config: Cache.Config, hash: Hasher, s: System, thread: nat, key: CacheKey)
    requires PhaseOf(s, thread) == Idle
    ensures Possible(config, hash, s, LookupSteps(config, hash, s, thread, key))
    ensures After(config, hash, s, LookupSteps(config, hash, s, thread, key)) == LookedUp(config, hash, s, thread, key)
  {
    hide Possible, After, InsertMemory, DecodeEntry;
    var begin := BeginGet(thread, key);
    if key in s.mem.entries {
      OneStep(config, hash, s, begin);
    } else {
      var phase := AfterRead(config, hash, s.files, key);
      var m := Next(config, hash, s, begin);
      var n := Next(config, hash, m, ReadDisk(thread));
      AnswerRuns(config, hash, n, thread, phase);
      Prepend(config, hash, m, ReadDisk(thread), AnswerSteps(phase, thread));
      Prepend(config, hash, s, begin, [ReadDisk(thread)] + AnswerSteps(phase, thread));
      assert s.threads[thread := Looking(key)][thread := phase][thread := Idle] == s.threads[thread := Idle];
      assert s.served + {} == s.served;
    }
  }

  // ---- Stores ----

  /** The removals of one eviction. */
  ghost function RemovalSteps(files: Files, order: seq<string>, total: nat, budget: nat): seq<Step> {
    if order == [] || total <= budget then []
    else [RemoveFile(order[0])]
         + RemovalSteps(files - {order[0]}, order[1..], SaturatingSub(total, SizeOf(files, order[0])), budget)
  }

  lemma {:induction false} RemovalsRun(config: Cache.Config, hash: Hasher, s: System, order: seq<string>, total: nat, budget: nat)
    ensures var steps := RemovalSteps(s.files, order, total, budget);
      && Possible(config, hash, s, steps)
      && After(config, hash, s, steps) == s.(files := RemoveToFit(s.files, order, total, budget).files)
    decreases |order|
  {
    hide Possible, After;
    if order == [] || total <= budget {
      Finished(config, hash, s);
    } else {
      var step, rest := RemoveFile(order[0]), SaturatingSub(total, SizeOf(s.files, order[0]));
      var n := Next(config, hash, s, step);
      RemovalsRun(config, hash, n, order[1..], rest, budget);
      Prepend(config, hash, s, step, RemovalSteps(n.files, order[1..], rest, budget));
    }
  }

  lemma {:induction false} Joined(config: Cache.Config, hash: Hasher, s: System, first: seq<Step>, second: seq<Step>)
    requires Possible(config, hash, s, first) && Possible(config, hash, After(config, hash, s, first), second)
    ensures Possible(config, hash, s, first + second)
    ensures After(config, hash, s, first + second) == After(config, hash, After(config, hash, s, first), second)
    decreases |first|
  {
    hide Next, Enabled;
    if first == [] {
      assert first + second == second;
    } else {
      Joined(config, hash, Next(config, hash, s, first[0]), first[1..], second);
      Prepend(config, hash, s, first[0], first[1..] + second);
      assert first + second == [first[0]] + (first[1..] + second);
    }
  }

  /** Evicting the directory to its budget, as a run. */
  lemma EvictionAlone(config: Cache.Config, hash: Hasher, s: System, listing: seq<string>) returns (steps: seq<Step>)
    ensures Possible(config, hash, s, steps)
    ensures var t := Cache.EvictedToBudget(config, StoreOf(s), listing);
      After(config, hash, s, steps) == s.(mem := t.mem, files := t.files)
  {
    hide Possible, After, RemoveToFit, OldestFirst, ListedTotal, DiskTotal, DiskCount;
    if config.diskBudget == 0 {
      steps := [];
      Finished(config, hash, s);
    } else {
      var order := OldestFirst(s.files, listing);
      var total := ListedTotal(s.files, order);
      var r := RemoveToFit(s.files, order, total, config.diskBudget);
      var removals := RemovalSteps(s.files, order, total, config.diskBudget);
      RemovalsRun(config, hash, s, order, total, config.diskBudget);
      var m := s.(files := r.files);
      var recount, evicted := SetInventory(DiskTotal(r.files), DiskCount(r.files)), CountEvictions(r.count);
      var n := Next(config, hash, m, recount);
      OneStep(config, hash, n, evicted);
      Prepend(config, hash, m, recount, [evicted] + []);
      steps := removals + ([recount] + ([evicted] + []));
      Joined(config, hash, s, removals, [recount] + ([evicted] + []));
    }
  }

  /** The store's own three steps. */
  lemma StoreSteps(config: Cache.Config, hash: Hasher, s: System, thread: nat, key: CacheKey, payload: Bytes, now: Moment)
    requires PhaseOf(s, thread) == Idle && |payload| < U64_LIMIT
    ensures var steps := [BeginPut(thread, key, payload)] + ([WriteFile(thread, now)] + ([InsertPut(thread)] + []));
      && Possible(config, hash, s, steps)
      && After(config, hash, s, steps)
         == s.(mem := InsertMemory(config.memoryBudget, s.mem, key, payload),
               files := Cache.Written(config, hash, s.files, key, payload, now),
               threads := s.threads[thread := Idle], supplied := s.supplied + {Item(key, payload)})
  {
    hide Possible, After, InsertMemory, Cache.Written;
    var begin, write := BeginPut(thread, key, payload), WriteFile(thread, now);
    var m := Next(config, hash, s, begin);
    var n := Next(config, hash, m, write);
    OneStep(config, hash, n, InsertPut(thread));
    Prepend(config, hash, m, write, [InsertPut(thread)] + []);
    Prepend(config, hash, s, begin, [write] + ([InsertPut(thread)] + []));
    assert s.threads[thread := Writing(key, payload)][thread := Inserting(key, payload)][thread := Idle]
        == s.threads[thread := Idle];
  }

  /** An undisturbed store, with the inventory and the eviction that end it, is `Put`. */
  lemma StoreAlone(config: Cache.Config, hash: Hasher, s: System, thread: nat, key: CacheKey, payload: Bytes, now: Moment,
                   listing: seq<string>) returns (steps: seq<Step>)
    requires PhaseOf(s, thread) == Idle && |payload| < U64_LIMIT
    ensures Possible(config, hash, s, steps)
    ensures var t := Cache.Put(config, hash, StoreOf(s), key, payload, now, listing);
      After(config, hash, s, steps)
      == System(t.mem, t.files, s.threads[thread := Idle], s.supplied + {Item(key, payload)}, s.served, s.started)
  {
    hide Possible, After, InsertMemory, Cache.Written, Cache.EvictedToBudget, DiskTotal, DiskCount;
    var own := [BeginPut(thread, key, payload)] + ([WriteFile(thread, now)] + ([InsertPut(thread)] + []));
    StoreSteps(config, hash, s, thread, key, payload, now);
    var m := After(config, hash, s, own);
    var recount := SetInventory(DiskTotal(m.files), DiskCount(m.files));
    var n := Next(config, hash, m, recount);
    var eviction := EvictionAlone(config, hash, n, listing);
    Prepend(config, hash, m, recount, eviction);
    Joined(config, hash, s, own, [recount] + eviction);
    steps := own + ([recount] + eviction);
  }

  // ---- Recovery and clearing ----

  lemma RecoveryAlone(config: Cache.Config, hash: Hasher, s: System, key: CacheKey) returns (steps: seq<Step>)
    ensures Possible(config, hash, s, steps)
    ensures var t := Cache.RecoverCorrupt(StoreOf(s), key);
      After(config, hash, s, steps) == s.(mem := t.mem, files := t.files)
  {
    hide Possible, After, DiskTotal, DiskCount, Recover, EntryName;
    var remove, forget := RemoveFile(EntryName(key)), RecoverMemory(key);
    var m := Next(config, hash, s, remove);
    var n := Next(config, hash, m, forget);
    var recount := SetInventory(DiskTotal(m.files), DiskCount(m.files));
    OneStep(config, hash, n, recount);
    Prepend(config, hash, m, forget, [recount] + []);
    Prepend(config, hash, s, remove, [forget] + ([recount] + []));
    steps := [remove] + ([forget] + ([recount] + []));
  }

  lemma {:induction false} RemoveAll(config: Cache.Config, hash: Hasher, s: System, names: set<string>) returns (steps: seq<Step>)
    ensures Possible(config, hash, s, steps)
    ensures After(config, hash, s, steps) == s.(files := s.files - names)
    decreases |names|
  {
    hide Possible, After;
    if names == {} {
      Finished(config, hash, s);
      assert s.files - names == s.files;
      steps := [];
    } else {
      var name :| name in names;
      var n := Next(config, hash, s, RemoveFile(name));
      var rest := RemoveAll(config, hash, n, names - {name});
      Prepend(config, hash, s, RemoveFile(name), rest);
      assert (s.files - {name}) - (names - {name}) == s.files - names;
      steps := [RemoveFile(name)] + rest;
    }
  }

  lemma ClearingAlone(config: Cache.Config, hash: Hasher, s: System) returns (steps: seq<Step>)
    ensures Possible(config, hash, s, steps)
    ensures var t := Cache.Cleared(StoreOf(s));
      After(config, hash, s, steps) == s.(mem := t.mem, files := t.files)
  {
    hide Possible, After, CacheNames;
    var removals := RemoveAll(config, hash, s, CacheNames(s.files));
    var m := After(config, hash, s, removals);
    OneStep(config, hash, m, ClearMemory);
    Joined(config, hash, s, removals, [ClearMemory] + []);
    steps := removals + ([ClearMemory] + []);
  }
}
