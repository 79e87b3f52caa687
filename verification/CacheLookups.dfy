/** Completeness and conservation of lookups: when the disk tier is never over budget the
    cache is exactly the plain map, and every lookup is counted once. */
module CacheLookups {
  import opened Wrappers
  import opened ByteStrings
  import opened KeyCodec
  import opened EntryCodec
  import opened MemoryTier
  import opened DiskTier
  import opened Cache
  import opened CacheRuns

  // ---- No loss without disk eviction ----

  /** The disk tier serves the whole map. */
  ghost predicate Complete(config: Config, hash: Hasher, files: Files, m: Contents) {
    forall k :: k in m ==> OnDisk(config, hash, files, k) == Some(m[k])
  }

  ghost predicate Exact(config: Config, hash: Hasher, s: Cache.Store, m: Contents) {
    && MemoryOk(config.memoryBudget, s.mem)
    && Agrees(config, hash, s, m)
    && Complete(config, hash, s.files, m)
  }

  /** The cache's own operations, with stores that leave the disk tier within budget. */
  ghost predicate Roomy(config: Config, hash: Hasher, s: Cache.Store, op: Op) {
    match op
    case Store(key, payload, now, listing) =>
      && Replaceable(config, s, key, payload)
      && IsListing(Written(config, hash, s.files, key, payload, now), listing)
      && DiskTotal(Written(config, hash, s.files, key, payload, now)) <= config.diskBudget
    case Reopening(listing) => IsListing(s.files, listing) && DiskTotal(s.files) <= config.diskBudget
    case Damage(_, _, _) => false
    case Loss(name) => !HasXvcExtension(name)
    case _ => true
  }

  lemma NothingToEvict(files: Files, listing: seq<string>, budget: nat)
    requires IsListing(files, listing) && DiskTotal(files) <= budget
    ensures EvictDisk(files, listing, budget) == Eviction(files, 0)
  {
    if budget > 0 {
      OldestFirstOrder(files, listing);
      ListedTotalIsDiskTotal(files, OldestFirst(files, listing));
    }
  }

  /** A lookup hits exactly the keys of the map, with exactly their payloads. */
  lemma ExactLookup(config: Config, hash: Hasher, s: Cache.Store, key: CacheKey, m: Contents)
    requires Exact(config, hash, s, m)
    ensures var hit := Get(config, hash, s, key).hit;
      && (hit.Some? <==> key in m)
      && (hit.Some? ==> hit.value.payload == m[key])
    ensures Get(config, hash, s, key).store.files == s.files || key !in m
  {
    hide MemoryOk;
    GetAgrees(config, hash, s, key, m);
    if key in m { assert OnDisk(config, hash, s.files, key) == Some(m[key]); }
  }

  lemma StepExact(config: Config, hash: Hasher, s: Cache.Store, op: Op, m: Contents)
    requires Exact(config, hash, s, m) && config.diskBudget > 0
    requires Roomy(config, hash, s, op)
    ensures Exact(config, hash, Apply(config, hash, s, op), NextContents(m, op))
  {
    StepGuarded(config, hash, s, op);
    StepAgrees(config, hash, s, op, m);
    MemoryStepOk(config, hash, s, op);
    forall k | k in NextContents(m, op)
      ensures OnDisk(config, hash, Apply(config, hash, s, op).files, k) == Some(NextContents(m, op)[k])
    {
      StepServes(config, hash, s, op, m, k);
    }
    hide MemoryOk, Agrees, Apply, NextContents, OnDisk, Roomy;
  }

  lemma StepGuarded(config: Config, hash: Hasher, s: Cache.Store, op: Op)
    requires Roomy(config, hash, s, op)
    ensures Guarded(config, hash, s, op)
  {
  }

  /** No operation takes away what the disk tier serves of the map. */
  lemma StepServes(config: Config, hash: Hasher, s: Cache.Store, op: Op, m: Contents, k: CacheKey)
    requires Exact(config, hash, s, m) && config.diskBudget > 0
    requires Roomy(config, hash, s, op) && k in NextContents(m, op)
    ensures OnDisk(config, hash, Apply(config, hash, s, op).files, k) == Some(NextContents(m, op)[k])
  {
    hide MemoryOk, Agrees, InsertMemory;
    match op
    case Lookup(key) =>
      EntryNameFaithful(key, k);
      ExactLookup(config, hash, s, key, m);
    case Store(key, payload, now, listing) =>
      if |payload| < U64_LIMIT {
        NothingToEvict(Written(config, hash, s.files, key, payload, now), listing, config.diskBudget);
        WrittenOnDisk(config, hash, s.files, key, payload, now, k);
      }
    case Recovery(key) => EntryNameFaithful(key, k);
    case Clearing =>
    case Reopening(listing) => NothingToEvict(s.files, listing, config.diskBudget);
    case Loss(name) => EntryNameFaithful(k, k);
  }

  ghost predicate RoomyThroughout(config: Config, hash: Hasher, s: Cache.Store, ops: seq<Op>) {
    forall i :: 0 <= i < |ops| ==> Roomy(config, hash, Run(config, hash, s, ops[..i]), ops[i])
  }

  /** While the disk tier never exceeds its budget the cache is the plain map, whatever the
      memory tier evicts and however often the process restarts. */
  lemma {:induction false} RunExact(config: Config, hash: Hasher, ops: seq<Op>)
    requires config.diskBudget > 0
    requires RoomyThroughout(config, hash, Open(config, map[], []), ops)
    ensures Exact(config, hash, Run(config, hash, Open(config, map[], []), ops), RunContents(map[], ops))
  {
    var start := Open(config, map[], []);
    if ops == [] {
      EvictDiskScope(map[], [], config.diskBudget);
      EmptyOk(config.memoryBudget, start.mem);
    } else {
      var n := |ops| - 1;
      hide Exact, Roomy, Open;
      forall i | 0 <= i < n
        ensures Roomy(config, hash, Run(config, hash, start, ops[..n][..i]), ops[..n][i])
      {
        assert ops[..n][..i] == ops[..i];
      }
      RunExact(config, hash, ops[..n]);
      StepExact(config, hash, Run(config, hash, start, ops[..n]), ops[n], RunContents(map[], ops[..n]));
    }
  }

  // ---- Conservation ----

  /** What a run's operations did, as their callers saw it. */
  datatype Tallies = Tallies(lookups: nat, found: nat, dropped: nat, recoveries: nat)

  /** The lookup finds a file under the key's name that is no entry of the key. */
  ghost predicate FindsCorrupt(config: Config, hash: Hasher, s: Cache.Store, key: CacheKey) {
    && key !in s.mem.entries && config.diskBudget > 0 && EntryName(key) in s.files
    && DecodeEntry(hash, key, s.files[EntryName(key)].bytes) == None
  }

  ghost function Seen(config: Config, hash: Hasher, s: Cache.Store, ops: seq<Op>): Tallies {
    if ops == [] then Tallies(0, 0, 0, 0)
    else
      var before := Run(config, hash, s, ops[..|ops| - 1]);
      var t := Seen(config, hash, s, ops[..|ops| - 1]);
      match ops[|ops| - 1]
      case Lookup(key) =>
        Tallies(t.lookups + 1,
                t.found + (if Get(config, hash, before, key).hit.Some? then 1 else 0),
                t.dropped + (if FindsCorrupt(config, hash, before, key) then 1 else 0),
                t.recoveries)
      case Recovery(_) => t.(recoveries := t.recoveries + 1)
      case _ => t
  }

  /** Counter growth between two states of one process. */
  ghost predicate Conserved(before: Stats, after: Stats, t: Tallies) {
    && after.memoryHits + after.diskHits + after.misses
       == before.memoryHits + before.diskHits + before.misses + t.lookups
    && after.memoryHits + after.diskHits == before.memoryHits + before.diskHits + t.found
    && after.corruptions == before.corruptions + t.dropped + t.recoveries
    && before.misses + t.dropped <= after.misses
  }

  lemma LookupConserved(config: Config, hash: Hasher, s: Cache.Store, key: CacheKey)
    requires MemoryOk(config.memoryBudget, s.mem)
    ensures Conserved(s.mem.stats, Get(config, hash, s, key).store.mem.stats,
                      Tallies(1, if Get(config, hash, s, key).hit.Some? then 1 else 0,
                              if FindsCorrupt(config, hash, s, key) then 1 else 0, 0))
  {
    hide MemoryOk;
    TouchOk(config.memoryBudget, s.mem, key);
    var found := OnDisk(config, hash, s.files, key);
    if key !in s.mem.entries && found.Some? {
      DiskHitOk(config.memoryBudget, Touch(s.mem, key));
      InsertMemoryOk(config.memoryBudget, DiskHit(Touch(s.mem, key)), key, found.value);
      hide InsertMemory;
    }
  }

  lemma OtherConserved(config: Config, hash: Hasher, s: Cache.Store, op: Op)
    requires MemoryOk(config.memoryBudget, s.mem)
    requires !op.Lookup? && !op.Reopening?
    ensures Conserved(s.mem.stats, Apply(config, hash, s, op).mem.stats,
                      Tallies(0, 0, 0, if op.Recovery? then 1 else 0))
  {
    hide MemoryOk;
    if op.Store? {
      InsertMemoryOk(config.memoryBudget, s.mem, op.key, op.payload);
      hide InsertMemory;
    }
  }

  /** Memory hits, disk hits and misses add up to the lookups made, hits to the lookups that
      returned a payload, and every corruption a lookup drops is one of its misses. */
  lemma {:induction false} LookupsConserved(config: Config, hash: Hasher, s: Cache.Store, ops: seq<Op>)
    requires MemoryOk(config.memoryBudget, s.mem)
    requires forall op :: op in ops ==> !op.Reopening?
    ensures MemoryOk(config.memoryBudget, Run(config, hash, s, ops).mem)
    ensures Conserved(s.mem.stats, Run(config, hash, s, ops).mem.stats, Seen(config, hash, s, ops))
  {
    hide MemoryOk;
    if ops != [] {
      var front, op := ops[..|ops| - 1], ops[|ops| - 1];
      LookupsConserved(config, hash, s, front);
      var before := Run(config, hash, s, front);
      MemoryStepOk(config, hash, before, op);
      assert op in ops;
      hide Get;
      if op.Lookup? {
        LookupConserved(config, hash, before, op.key);
      } else {
        OtherConserved(config, hash, before, op);
      }
    }
  }
}
