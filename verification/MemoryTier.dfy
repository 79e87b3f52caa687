/** The in-process tier: a byte-budgeted least-recently-used map. Access stamps and byte
    counters are unbounded; subtraction saturates at zero as in the program. */
module MemoryTier {
  import opened ByteStrings
  import opened KeyCodec
  import opened FiniteMaps

  datatype MemoryEntry = MemoryEntry(payload: Bytes, lastAccess: nat)

  type Entries = map<CacheKey, MemoryEntry>

  datatype Stats = Stats(memoryHits: nat, diskHits: nat, misses: nat,
                         evictions: nat, corruptions: nat,
                         memoryBytes: nat, diskBytes: nat,
                         memoryEntries: nat, diskEntries: nat)

  datatype State = State(entries: Entries, memoryBytes: nat, accessClock: nat, stats: Stats)

  const FreshStats := Stats(0, 0, 0, 0, 0, 0, 0, 0, 0)
  const FreshState := State(map[], 0, 0, FreshStats)

  function SaturatingSub(a: nat, b: nat): nat {
    if a < b then 0 else a - b
  }

  // ---- What the operations compute ----

  predicate IsOldest(entries: Entries, key: CacheKey) {
    key in entries && forall k :: k in entries ==> entries[key].lastAccess <= entries[k].lastAccess
  }

  lemma {:induction false} OldestExists(entries: Entries)
    requires entries != map[]
    ensures exists key :: IsOldest(entries, key)
    decreases |entries|
  {
    var k :| k in entries;
    var rest := entries - {k};
    if rest == map[] {
      assert entries.Keys == {k} + rest.Keys;
      assert IsOldest(entries, k);
    } else {
      OldestExists(rest);
      var o :| IsOldest(rest, o);
      assert entries.Keys == rest.Keys + {k};
      assert IsOldest(entries, if entries[k].lastAccess < entries[o].lastAccess then k else o);
    }
  }

  ghost function Oldest(entries: Entries): (key: CacheKey)
    requires entries != map[]
    ensures IsOldest(entries, key)
  {
    OldestExists(entries);
    var key :| IsOldest(entries, key);
    key
  }

  /** Drops one resident entry and its bytes. */
  function Forget(s: State, key: CacheKey): State
    requires key in s.entries
  {
    s.(entries := s.entries - {key},
       memoryBytes := SaturatingSub(s.memoryBytes, |s.entries[key].payload|))
  }

  /** One round of the eviction loop. */
  ghost function EvictOldest(s: State): (t: State)
    requires s.entries != map[]
    ensures |t.entries| == |s.entries| - 1
  {
    var oldest := Oldest(s.entries);
    assert (s.entries - {oldest}).Keys == s.entries.Keys - {oldest};
    Forget(s, oldest).(stats := s.stats.(evictions := s.stats.evictions + 1))
  }

  /** Evicts least-recently-used entries until `need` more bytes fit. */
  ghost function EvictToFit(s: State, need: nat, budget: nat): State
    decreases |s.entries|
  {
    if s.memoryBytes + need <= budget || s.entries == map[] then s
    else
      EvictToFit(EvictOldest(s), need, budget)
  }

  /** `insert_memory`: an oversize payload changes nothing at all. */
  ghost function InsertMemory(budget: nat, s: State, key: CacheKey, payload: Bytes): State {
    if budget == 0 || |payload| > budget then s
    else
      var cleared := if key in s.entries then Forget(s, key) else s;
      var room := EvictToFit(cleared, |payload|, budget);
      var clock := room.accessClock + 1;
      var entries := room.entries[key := MemoryEntry(payload, clock)];
      State(entries, room.memoryBytes + |payload|, clock,
            room.stats.(memoryBytes := room.memoryBytes + |payload|, memoryEntries := |entries|))
  }

  /** First critical section of a lookup: tick, and refresh the stamp of a resident key. */
  function Touch(s: State, key: CacheKey): State {
    var clock := s.accessClock + 1;
    if key in s.entries then
      s.(accessClock := clock,
         entries := s.entries[key := s.entries[key].(lastAccess := clock)],
         stats := s.stats.(memoryHits := s.stats.memoryHits + 1))
    else
      s.(accessClock := clock)
  }

  /** Removal on semantic corruption. */
  function Recover(s: State, key: CacheKey): State {
    var t := if key in s.entries then Forget(s, key) else s;
    t.(stats := t.stats.(corruptions := t.stats.corruptions + 1,
                         memoryBytes := t.memoryBytes, memoryEntries := |t.entries|))
  }

  function ClearState(s: State): State {
    s.(entries := map[], memoryBytes := 0,
       stats := s.stats.(memoryBytes := 0, diskBytes := 0, memoryEntries := 0, diskEntries := 0))
  }

  // ---- Accounting invariant ----

  ghost function Sizes(entries: Entries): map<CacheKey, nat> {
    map k | k in entries :: |entries[k].payload|
  }

  /** Payload bytes actually resident. */
  ghost function Resident(entries: Entries): nat {
    Sum(Sizes(entries))
  }

  /** Access stamps are distinct and not in the future. */
  predicate Stamped(entries: Entries, clock: nat) {
    && (forall k :: k in entries ==> entries[k].lastAccess <= clock)
    && (forall j, k :: j in entries && k in entries && j != k
                       ==> entries[j].lastAccess != entries[k].lastAccess)
  }

  ghost predicate Accounted(s: State) {
    s.memoryBytes == Resident(s.entries) && Stamped(s.entries, s.accessClock)
  }

  /** Exact byte count within the hard budget, distinct stamps, and mirrored statistics. */
  ghost predicate MemoryOk(budget: nat, s: State) {
    && Accounted(s)
    && s.memoryBytes <= budget
    && (budget == 0 ==> s.entries == map[])
    && s.stats.memoryBytes == s.memoryBytes
    && s.stats.memoryEntries == |s.entries|
  }

  lemma ResidentSplit(entries: Entries, key: CacheKey)
    requires key in entries
    ensures Resident(entries) == |entries[key].payload| + Resident(entries - {key})
  {
    SumSplit(Sizes(entries), key);
    assert Sizes(entries) - {key} == Sizes(entries - {key});
  }

  lemma ResidentInsert(entries: Entries, key: CacheKey, e: MemoryEntry)
    ensures Resident(entries[key := e]) == |e.payload| + Resident(entries - {key})
  {
    ResidentSplit(entries[key := e], key);
    assert entries[key := e] - {key} == entries - {key};
  }

  lemma ForgetAccounted(s: State, key: CacheKey)
    requires key in s.entries && Accounted(s)
    ensures Accounted(Forget(s, key))
    ensures Forget(s, key).memoryBytes == s.memoryBytes - |s.entries[key].payload|
    ensures |Forget(s, key).entries| == |s.entries| - 1
  {
    ResidentSplit(s.entries, key);
    assert (s.entries - {key}).Keys == s.entries.Keys - {key};
  }

  /** Eviction only removes entries, and counts each removal. */
  ghost predicate OnlyEvicted(s: State, t: State) {
    && t.entries.Keys <= s.entries.Keys
    && (forall k :: k in t.entries ==> t.entries[k] == s.entries[k])
    && t.accessClock == s.accessClock
    && t.stats.(evictions := 0) == s.stats.(evictions := 0)
    && t.stats.evictions + |t.entries| == s.stats.evictions + |s.entries|
  }

  lemma EvictOldestAccounted(s: State)
    requires Accounted(s) && s.entries != map[]
    ensures Accounted(EvictOldest(s)) && OnlyEvicted(s, EvictOldest(s))
  {
    ForgetAccounted(s, Oldest(s.entries));
  }

  lemma EvictedTwice(s: State, t: State, u: State)
    requires OnlyEvicted(s, t) && OnlyEvicted(t, u)
    ensures OnlyEvicted(s, u)
  {
  }

  lemma {:induction false} EvictToFitAccounted(s: State, need: nat, budget: nat)
    requires Accounted(s) && need <= budget
    ensures Accounted(EvictToFit(s, need, budget))
    ensures EvictToFit(s, need, budget).memoryBytes + need <= budget
    ensures OnlyEvicted(s, EvictToFit(s, need, budget))
    decreases |s.entries|
  {
    if s.entries == map[] {
      assert Sizes(s.entries) == map[];
    } else if s.memoryBytes + need > budget {
      EvictOldestAccounted(s);
      EvictToFitAccounted(EvictOldest(s), need, budget);
      EvictedTwice(s, EvictOldest(s), EvictToFit(s, need, budget));
    }
  }

  /** Everything in `evicted` was used before everything that stays. */
  ghost predicate LruPrefix(entries: Entries, evicted: set<CacheKey>) {
    && evicted <= entries.Keys
    && forall a, b :: a in evicted && b in entries && b !in evicted
                      ==> entries[a].lastAccess < entries[b].lastAccess
  }

  /** The keys an eviction removes. */
  ghost function Evicted(s: State, need: nat, budget: nat): set<CacheKey> {
    s.entries.Keys - EvictToFit(s, need, budget).entries.Keys
  }

  /** The evicted keys are a least-recently-used prefix, and evicting them makes room. */
  lemma {:induction false} EvictsLruPrefix(s: State, need: nat, budget: nat)
    requires Accounted(s) && need <= budget
    ensures LruPrefix(s.entries, Evicted(s, need, budget))
    ensures EvictToFit(s, need, budget).entries == s.entries - Evicted(s, need, budget)
    ensures Resident(s.entries - Evicted(s, need, budget)) + need <= budget
    decreases |s.entries|
  {
    EvictToFitAccounted(s, need, budget);
    EvictedComplement(s, EvictToFit(s, need, budget));
    if s.memoryBytes + need > budget && s.entries != map[] {
      var next := EvictOldest(s);
      EvictOldestAccounted(s);
      EvictsLruPrefix(next, need, budget);
      EvictedFirst(s, need, budget);
      PrefixAfterOldest(s, Evicted(next, need, budget));
    }
  }

  /** No shorter prefix would have done: every one that makes room contains the evicted keys. */
  lemma {:induction false} EvictsNoMore(s: State, need: nat, budget: nat, other: set<CacheKey>)
    requires Accounted(s) && need <= budget
    requires LruPrefix(s.entries, other) && Resident(s.entries - other) + need <= budget
    ensures Evicted(s, need, budget) <= other
    decreases |s.entries|
  {
    if s.memoryBytes + need > budget && s.entries != map[] {
      OldestInPrefix(s, other, need, budget);
      EvictOldestAccounted(s);
      EvictsNoMore(EvictOldest(s), need, budget, other - {Oldest(s.entries)});
      EvictedFirst(s, need, budget);
    }
  }

  lemma EvictedComplement(s: State, t: State)
    requires OnlyEvicted(s, t)
    ensures t.entries == s.entries - (s.entries.Keys - t.entries.Keys)
  {
  }

  lemma EvictedFirst(s: State, need: nat, budget: nat)
    requires Accounted(s) && need <= budget && s.memoryBytes + need > budget && s.entries != map[]
    ensures Evicted(s, need, budget) == {Oldest(s.entries)} + Evicted(EvictOldest(s), need, budget)
  {
    EvictOldestAccounted(s);
    EvictToFitAccounted(EvictOldest(s), need, budget);
  }

  lemma PrefixAfterOldest(s: State, prefix: set<CacheKey>)
    requires Accounted(s) && s.entries != map[]
    requires LruPrefix(EvictOldest(s).entries, prefix)
    ensures LruPrefix(s.entries, {Oldest(s.entries)} + prefix)
  {
    var oldest := Oldest(s.entries);
    var rest := EvictOldest(s).entries;
    forall a, b | a in {oldest} + prefix && b in s.entries && b !in {oldest} + prefix
      ensures s.entries[a].lastAccess < s.entries[b].lastAccess
    {
      assert b in rest && rest[b] == s.entries[b];
      if a in prefix { assert rest[a] == s.entries[a]; }
    }
  }

  lemma RemoveNone(entries: Entries, none: set<CacheKey>)
    ensures none == {} ==> entries - none == entries
  {
  }

  lemma OldestInPrefix(s: State, other: set<CacheKey>, need: nat, budget: nat)
    requires Accounted(s) && s.entries != map[] && s.memoryBytes + need > budget
    requires LruPrefix(s.entries, other) && Resident(s.entries - other) + need <= budget
    ensures Oldest(s.entries) in other
    ensures LruPrefix(EvictOldest(s).entries, other - {Oldest(s.entries)})
    ensures EvictOldest(s).entries - (other - {Oldest(s.entries)}) == s.entries - other
  {
    var oldest := Oldest(s.entries);
    RemoveNone(s.entries, other);
    assert other != {};
    var a :| a in other;
    assert a in s.entries;
    assert EvictOldest(s).entries - (other - {oldest}) == s.entries - other;
  }

  /** An insertion changes no lookup, corruption or disk statistic. */
  predicate SameLookups(s: Stats, t: Stats) {
    s.(evictions := 0, memoryBytes := 0, memoryEntries := 0)
    == t.(evictions := 0, memoryBytes := 0, memoryEntries := 0)
  }

  predicate Fits(budget: nat, payload: Bytes) {
    0 < budget && |payload| <= budget
  }

  /** The state just before the new entry is linked in. */
  ghost function RoomFor(budget: nat, s: State, key: CacheKey, payload: Bytes): State {
    EvictToFit(if key in s.entries then Forget(s, key) else s, |payload|, budget)
  }

  lemma RoomForOk(budget: nat, s: State, key: CacheKey, payload: Bytes)
    requires MemoryOk(budget, s) && Fits(budget, payload)
    ensures var room := RoomFor(budget, s, key, payload);
      && Accounted(room)
      && room.memoryBytes + |payload| <= budget
      && key !in room.entries
      && room.entries.Keys <= s.entries.Keys
      && (forall k :: k in room.entries ==> room.entries[k] == s.entries[k])
      && room.accessClock == s.accessClock
      && SameLookups(s.stats, room.stats)
  {
    if key in s.entries { ForgetAccounted(s, key); }
    EvictToFitAccounted(if key in s.entries then Forget(s, key) else s, |payload|, budget);
  }

  lemma LinkInAccounted(room: State, key: CacheKey, payload: Bytes)
    requires Accounted(room) && key !in room.entries
    ensures var clock := room.accessClock + 1;
      var entries := room.entries[key := MemoryEntry(payload, clock)];
      Stamped(entries, clock) && Resident(entries) == room.memoryBytes + |payload|
  {
    ResidentInsert(room.entries, key, MemoryEntry(payload, room.accessClock + 1));
    assert room.entries - {key} == room.entries;
  }

  /** What an insertion that fits leaves behind. */
  lemma InsertedState(budget: nat, s: State, key: CacheKey, payload: Bytes)
    requires Fits(budget, payload)
    ensures var room := RoomFor(budget, s, key, payload);
      var entries := room.entries[key := MemoryEntry(payload, room.accessClock + 1)];
      InsertMemory(budget, s, key, payload)
      == State(entries, room.memoryBytes + |payload|, room.accessClock + 1,
               room.stats.(memoryBytes := room.memoryBytes + |payload|, memoryEntries := |entries|))
  {
    hide EvictToFit;
  }

  lemma InsertedOk(budget: nat, s: State, key: CacheKey, payload: Bytes)
    requires MemoryOk(budget, s) && Fits(budget, payload)
    ensures MemoryOk(budget, InsertMemory(budget, s, key, payload))
  {
    hide Stamped, Resident, RoomFor, InsertMemory;
    InsertedState(budget, s, key, payload);
    RoomForOk(budget, s, key, payload);
    LinkInAccounted(RoomFor(budget, s, key, payload), key, payload);
  }

  /** Insertion keeps the invariant, stores the payload most recently of all, and only
      ever loses other keys. */
  lemma InsertMemoryOk(budget: nat, s: State, key: CacheKey, payload: Bytes)
    requires MemoryOk(budget, s)
    ensures MemoryOk(budget, InsertMemory(budget, s, key, payload))
    ensures !Fits(budget, payload) ==> InsertMemory(budget, s, key, payload) == s
    ensures Fits(budget, payload) ==>
      var t := InsertMemory(budget, s, key, payload);
      && key in t.entries
      && t.entries[key] == MemoryEntry(payload, s.accessClock + 1)
      && t.accessClock == s.accessClock + 1
      && forall k :: k in t.entries && k != key ==> k in s.entries && t.entries[k] == s.entries[k]
    ensures SameLookups(s.stats, InsertMemory(budget, s, key, payload).stats)
  {
    if Fits(budget, payload) {
      hide MemoryOk, InsertMemory, RoomFor, Accounted;
      InsertedState(budget, s, key, payload);
      InsertedOk(budget, s, key, payload);
      RoomForOk(budget, s, key, payload);
    }
  }

  lemma TouchOk(budget: nat, s: State, key: CacheKey)
    requires MemoryOk(budget, s)
    ensures MemoryOk(budget, Touch(s, key))
  {
    hide Resident;
    if key in s.entries {
      TouchedResident(s, key);
      TouchedStamps(s, key);
      hide Stamped;
    } else {
      TouchedStamps(s, key);
    }
  }

  lemma TouchedResident(s: State, key: CacheKey)
    requires key in s.entries
    ensures Resident(Touch(s, key).entries) == Resident(s.entries)
    ensures |Touch(s, key).entries| == |s.entries|
  {
    ResidentSplit(s.entries, key);
    ResidentInsert(s.entries, key, s.entries[key].(lastAccess := s.accessClock + 1));
    assert Touch(s, key).entries.Keys == s.entries.Keys;
    assert |Touch(s, key).entries| == |Touch(s, key).entries.Keys| && |s.entries| == |s.entries.Keys|;
  }

  lemma TouchedStamps(s: State, key: CacheKey)
    requires Stamped(s.entries, s.accessClock)
    ensures Stamped(Touch(s, key).entries, Touch(s, key).accessClock)
  {
  }

  lemma RecoverOk(budget: nat, s: State, key: CacheKey)
    requires MemoryOk(budget, s)
    ensures MemoryOk(budget, Recover(s, key))
    ensures Recover(s, key).entries == s.entries - {key}
  {
    if key in s.entries { ForgetAccounted(s, key); } else { assert s.entries - {key} == s.entries; }
  }

  lemma EmptyOk(budget: nat, s: State)
    requires s.entries == map[] && s.memoryBytes == 0
    requires s.stats.memoryBytes == 0 && s.stats.memoryEntries == 0
    ensures MemoryOk(budget, s)
  {
    assert Sizes(s.entries) == map[];
  }
}
