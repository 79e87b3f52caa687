/** The disk tier: one directory of named files, of which only `.xvc` entries belong to the
    cache. The order in which the host lists the directory is a parameter. */
module DiskTier {
  import opened ByteStrings
  import opened KeyCodec
  import opened FiniteMaps
  import opened Sorting
  import MemoryTier

  datatype File = File(bytes: Bytes, modified: nat)

  type Files = map<string, File>

  /** What the host contributes to a write: its clock and the number of the process. */
  datatype Moment = Moment(time: nat, process: nat)

  function CacheNames(files: Files): set<string> {
    set name | name in files && HasXvcExtension(name)
  }

  ghost function CacheSizes(files: Files): map<string, nat> {
    map name | name in CacheNames(files) :: |files[name].bytes|
  }

  /** Total bytes of all cache entries, as an inventory finds them. */
  ghost function DiskTotal(files: Files): nat {
    Sum(CacheSizes(files))
  }

  function DiskCount(files: Files): nat {
    |CacheNames(files)|
  }

  /** Every directory entry exactly once, in any order. */
  ghost predicate IsListing(files: Files, listing: seq<string>) {
    && (forall name :: name in files <==> name in listing)
    && Distinct(listing)
  }

  predicate Distinct(names: seq<string>) {
    forall i, j :: 0 <= i < j < |names| ==> names[i] != names[j]
  }

  function Names(names: seq<string>): set<string> {
    set name | name in names
  }

  /** The cache entries of a listing, in listing order. */
  function CacheListing(files: Files, listing: seq<string>): seq<string> {
    if listing == [] then []
    else
      var last := listing[|listing| - 1];
      CacheListing(files, listing[..|listing| - 1])
      + (if last in CacheNames(files) then [last] else [])
  }

  function Age(files: Files, name: string): real {
    if name in files then files[name].modified as real else 0.0
  }

  /** The sort key of the eviction order. */
  function ByAge(files: Files): string -> real {
    (name: string) => Age(files, name)
  }

  /** Oldest modification first; equal times keep their listing order. */
  function OldestFirst(files: Files, listing: seq<string>): seq<string> {
    SortBy(CacheListing(files, listing), ByAge(files))
  }

  function SizeOf(files: Files, name: string): nat {
    if name in files then |files[name].bytes| else 0
  }

  function ListedTotal(files: Files, names: seq<string>): nat {
    if names == [] then 0
    else ListedTotal(files, names[..|names| - 1]) + SizeOf(files, names[|names| - 1])
  }

  datatype Eviction = Eviction(files: Files, count: nat)

  /** The removal loop: from the front of `order` while the running total is over budget. */
  function RemoveToFit(files: Files, order: seq<string>, total: nat, budget: nat): Eviction {
    if order == [] || total <= budget then Eviction(files, 0)
    else
      var rest := RemoveToFit(files - {order[0]}, order[1..],
                              MemoryTier.SaturatingSub(total, SizeOf(files, order[0])), budget);
      Eviction(rest.files, rest.count + 1)
  }

  function EvictDisk(files: Files, listing: seq<string>, budget: nat): Eviction {
    if budget == 0 then Eviction(files, 0)
    else
      var order := OldestFirst(files, listing);
      RemoveToFit(files, order, ListedTotal(files, order), budget)
  }

  // ---- What eviction guarantees ----

  lemma {:induction false} CacheListingNames(files: Files, listing: seq<string>)
    requires Distinct(listing)
    ensures Distinct(CacheListing(files, listing))
    ensures forall name :: name in CacheListing(files, listing)
                       <==> name in listing && name in CacheNames(files)
  {
    if listing != [] {
      var front, last := listing[..|listing| - 1], listing[|listing| - 1];
      CacheListingNames(files, front);
      assert listing == front + [last];
      assert last !in front;
    }
  }

  lemma DistinctPermutation(xs: seq<string>, ys: seq<string>)
    requires multiset(xs) == multiset(ys) && Distinct(xs)
    ensures Distinct(ys) && forall name :: name in xs <==> name in ys
  {
    forall name ensures name in xs <==> name in ys {
      assert name in xs <==> name in multiset(xs);
      assert name in ys <==> name in multiset(ys);
    }
    forall i, j | 0 <= i < j < |ys| ensures ys[i] != ys[j] {
      if ys[i] == ys[j] {
        TwiceInMultiset(ys, i, j);
        OnceInMultiset(xs, ys[i]);
        assert false;
      }
    }
  }

  lemma TwiceInMultiset(xs: seq<string>, i: nat, j: nat)
    requires i < j < |xs| && xs[i] == xs[j]
    ensures multiset(xs)[xs[i]] >= 2
  {
    assert xs == xs[..i] + [xs[i]] + xs[i + 1..j] + [xs[j]] + xs[j + 1..];
  }

  lemma {:induction false} OnceInMultiset(xs: seq<string>, x: string)
    requires Distinct(xs)
    ensures multiset(xs)[x] <= 1
  {
    if xs != [] {
      var front, last := xs[..|xs| - 1], xs[|xs| - 1];
      assert xs == front + [last];
      OnceInMultiset(front, x);
      if x == last {
        assert x !in front;
        assert x !in multiset(front);
      }
    }
  }

  lemma OldestFirstOrder(files: Files, listing: seq<string>)
    requires IsListing(files, listing)
    ensures var order := OldestFirst(files, listing);
      && Distinct(order)
      && Names(order) == CacheNames(files)
      && OldestFirstSorted(files, order)
  {
    var key := ByAge(files);
    var listed := CacheListing(files, listing);
    CacheListingNames(files, listing);
    SortBySorts(listed, key);
    var order := OldestFirst(files, listing);
    DistinctPermutation(listed, order);
    forall i, j | 0 <= i < j < |order| ensures Age(files, order[i]) <= Age(files, order[j]) {
      assert key(order[i]) <= key(order[j]);
    }
  }

  /** Entries of one age are evicted in the order in which the host lists them. */
  lemma TiesKeepListing(files: Files, listing: seq<string>, age: real)
    ensures WithKey(OldestFirst(files, listing), ByAge(files), age) == WithKey(CacheListing(files, listing), ByAge(files), age)
  {
    SortByStable(CacheListing(files, listing), ByAge(files), age);
  }

  lemma DiskTotalSplit(files: Files, name: string)
    requires name in CacheNames(files)
    ensures DiskTotal(files) == |files[name].bytes| + DiskTotal(files - {name})
    ensures CacheNames(files - {name}) == CacheNames(files) - {name}
  {
    SumSplit(CacheSizes(files), name);
    assert CacheNames(files - {name}) == CacheNames(files) - {name};
    assert CacheSizes(files) - {name} == CacheSizes(files - {name});
  }

  /** Only cache entries count. */
  lemma DiskTotalOther(files: Files, other: Files)
    requires CacheNames(files) == CacheNames(other)
    requires forall name :: name in CacheNames(files) ==> |files[name].bytes| == |other[name].bytes|
    ensures DiskTotal(files) == DiskTotal(other)
  {
    assert CacheSizes(files) == CacheSizes(other);
  }

  lemma {:induction false} ListedTotalIsDiskTotal(files: Files, names: seq<string>)
    requires Distinct(names) && Names(names) == CacheNames(files)
    ensures ListedTotal(files, names) == DiskTotal(files)
  {
    if names == [] {
      assert CacheSizes(files) == map[];
    } else {
      var front, last := names[..|names| - 1], names[|names| - 1];
      assert names == front + [last];
      assert last in Names(names);
      DiskTotalSplit(files, last);
      var rest := files - {last};
      assert Names(front) == CacheNames(rest);
      ListedTotalIsDiskTotal(rest, front);
      ListedTotalFrame(files, rest, front);
    }
  }

  lemma {:induction false} ListedTotalFrame(files: Files, other: Files, names: seq<string>)
    requires forall name :: name in names ==> SizeOf(files, name) == SizeOf(other, name)
    ensures ListedTotal(files, names) == ListedTotal(other, names)
  {
    if names != [] {
      assert names[|names| - 1] in names;
      ListedTotalFrame(files, other, names[..|names| - 1]);
    }
  }

  /** The files removed are a front of the order; the loop stops as soon as the budget holds
      and not before: sparing the last removed file would leave the tier over budget. */
  ghost predicate FrontRemoved(files: Files, order: seq<string>, r: Eviction, budget: nat) {
    && r.count <= |order|
    && r.files == files - Names(order[..r.count])
    && DiskTotal(r.files) <= budget
    && (r.count > 0 ==> DiskTotal(files - Names(order[..r.count - 1])) > budget)
  }

  lemma {:induction false} RemoveToFitFront(files: Files, order: seq<string>, total: nat, budget: nat)
    requires Distinct(order) && Names(order) == CacheNames(files)
    requires total == DiskTotal(files)
    ensures FrontRemoved(files, order, RemoveToFit(files, order, total, budget), budget)
  {
    hide FrontRemoved, DiskTotal, CacheNames, Names, Distinct;
    if order == [] || total <= budget {
      NothingToRemove(files, order, budget);
    } else {
      FirstRemoved(files, order);
      var first := order[0];
      var rest := total - |files[first].bytes|;
      RemoveToFitFront(files - {first}, order[1..], rest, budget);
      FrontStep(files, order, RemoveToFit(files - {first}, order[1..], rest, budget), budget);
    }
  }

  lemma NothingToRemove(files: Files, order: seq<string>, budget: nat)
    requires Names(order) == CacheNames(files)
    requires order == [] || DiskTotal(files) <= budget
    ensures FrontRemoved(files, order, Eviction(files, 0), budget)
  {
    if order == [] { assert CacheSizes(files) == map[]; }
    NothingRemoved(files, order);
  }

  lemma FirstRemoved(files: Files, order: seq<string>)
    requires order != [] && Distinct(order) && Names(order) == CacheNames(files)
    ensures order[0] in files && Distinct(order[1..])
    ensures DiskTotal(files) == |files[order[0]].bytes| + DiskTotal(files - {order[0]})
    ensures Names(order[1..]) == CacheNames(files - {order[0]})
  {
    var first, tail := order[0], order[1..];
    assert order == [first] + tail;
    assert first in Names(order);
    DiskTotalSplit(files, first);
    assert first !in tail;
    assert Names(order) == {first} + Names(tail);
  }

  lemma NothingRemoved(files: Files, order: seq<string>)
    ensures files - Names(order[..0]) == files
  {
    assert Names(order[..0]) == {};
  }

  lemma FrontStep(files: Files, order: seq<string>, r: Eviction, budget: nat)
    requires order != [] && DiskTotal(files) > budget
    requires FrontRemoved(files - {order[0]}, order[1..], r, budget)
    ensures FrontRemoved(files, order, Eviction(r.files, r.count + 1), budget)
  {
    var first, tail := order[0], order[1..];
    FrontNames(order, r.count + 1);
    assert files - Names(order[..r.count + 1]) == (files - {first}) - Names(tail[..r.count]);
    if r.count > 0 {
      FrontNames(order, r.count);
      assert files - Names(order[..r.count]) == (files - {first}) - Names(tail[..r.count - 1]);
    } else {
      NothingRemoved(files, order);
    }
  }

  lemma FrontNames(order: seq<string>, n: nat)
    requires 0 < n <= |order|
    ensures Names(order[..n]) == {order[0]} + Names(order[1..][..n - 1])
  {
    assert order[..n] == [order[0]] + order[1..][..n - 1];
  }

  /** `evicted` was chosen oldest first, and no file was removed needlessly. */
  ghost predicate OldestFirstEviction(files: Files, evicted: set<string>, budget: nat) {
    && evicted <= CacheNames(files)
    && DiskTotal(files - evicted) <= budget
    && (forall a, b :: a in evicted && b in CacheNames(files) && b !in evicted
                       ==> files[a].modified <= files[b].modified)
    && (evicted == {} || exists last :: SparingOverflows(files, evicted, last, budget))
  }

  /** `last` is a newest evicted file, and keeping it would exceed the budget. */
  ghost predicate SparingOverflows(files: Files, evicted: set<string>, last: string, budget: nat) {
    && last in evicted && evicted <= files.Keys
    && DiskTotal(files - (evicted - {last})) > budget
    && forall a :: a in evicted ==> files[a].modified <= files[last].modified
  }

  /** Eviction enforces the budget with a minimal oldest-first set of cache entries. */
  lemma EvictDiskMinimal(files: Files, listing: seq<string>, budget: nat)
    requires IsListing(files, listing) && budget > 0
    ensures var r := EvictDisk(files, listing, budget);
      var evicted := files.Keys - r.files.Keys;
      && r.files == files - evicted
      && r.count == |evicted|
      && OldestFirstEviction(files, evicted, budget)
  {
    var order := OldestFirst(files, listing);
    OldestFirstOrder(files, listing);
    ListedTotalIsDiskTotal(files, order);
    RemoveToFitFront(files, order, DiskTotal(files), budget);
    var r := EvictDisk(files, listing, budget);
    FrontWithin(order, r.count);
    assert files.Keys - r.files.Keys == Names(order[..r.count]);
    NamesSize(order[..r.count]);
    FrontIsMinimal(files, order, r, budget);
  }

  lemma FrontIsMinimal(files: Files, order: seq<string>, r: Eviction, budget: nat)
    requires Distinct(order) && OldestFirstSorted(files, order) && Names(order) == CacheNames(files)
    requires FrontRemoved(files, order, r, budget)
    ensures OldestFirstEviction(files, Names(order[..r.count]), budget)
  {
    var evicted := Names(order[..r.count]);
    FrontWithin(order, r.count);
    FrontIsOldest(files, order, r.count);
    if r.count > 0 {
      LastIsNewest(files, order, r.count);
      assert SparingOverflows(files, evicted, order[r.count - 1], budget);
    } else {
      assert evicted == {};
    }
  }

  predicate OldestFirstSorted(files: Files, order: seq<string>) {
    forall i, j :: 0 <= i < j < |order| ==> Age(files, order[i]) <= Age(files, order[j])
  }

  lemma FrontWithin(order: seq<string>, n: nat)
    requires n <= |order|
    ensures Names(order[..n]) <= Names(order)
  {
    forall name | name in Names(order[..n]) ensures name in Names(order) {
      assert name in order[..n];
    }
  }

  lemma AtFront(order: seq<string>, n: nat, j: nat)
    requires n <= |order| && j < |order|
    ensures j < n ==> order[j] in Names(order[..n])
  {
    if j < n { assert order[..n][j] == order[j]; }
  }

  lemma FrontIsOldest(files: Files, order: seq<string>, n: nat)
    requires n <= |order| && OldestFirstSorted(files, order) && Names(order) == CacheNames(files)
    ensures forall a, b :: a in Names(order[..n]) && b in CacheNames(files) && b !in Names(order[..n])
                           ==> a in files && files[a].modified <= files[b].modified
  {
    forall a, b | a in Names(order[..n]) && b in CacheNames(files) && b !in Names(order[..n])
      ensures a in files && files[a].modified <= files[b].modified
    {
      FrontWithin(order, n);
      assert a in order[..n];
      var i :| 0 <= i < n && order[i] == a;
      assert b in Names(order);
      var j :| 0 <= j < |order| && order[j] == b;
      AtFront(order, n, j);
      assert Age(files, a) <= Age(files, b);
    }
  }

  lemma LastIsNewest(files: Files, order: seq<string>, n: nat)
    requires 0 < n <= |order| && Distinct(order)
    requires OldestFirstSorted(files, order) && Names(order) == CacheNames(files)
    ensures order[n - 1] in Names(order[..n])
    ensures Names(order[..n]) - {order[n - 1]} == Names(order[..n - 1])
    ensures forall a :: a in Names(order[..n])
                        ==> a in files && order[n - 1] in files && files[a].modified <= files[order[n - 1]].modified
  {
    var last := order[n - 1];
    assert order[..n] == order[..n - 1] + [last];
    assert last !in order[..n - 1];
    FrontWithin(order, n);
    forall a | a in Names(order[..n])
      ensures a in files && last in files && files[a].modified <= files[last].modified
    {
      assert a in order[..n];
      var i :| 0 <= i < n && order[i] == a;
      assert last in Names(order[..n]);
      assert Age(files, a) <= Age(files, last);
    }
  }

  lemma {:induction false} NamesSize(names: seq<string>)
    requires Distinct(names)
    ensures |Names(names)| == |names|
  {
    if names != [] {
      var front, last := names[..|names| - 1], names[|names| - 1];
      assert names == front + [last];
      NamesSize(front);
      assert Names(names) == Names(front) + {last};
      assert last !in front;
    }
  }

  /** Whatever the listing says, eviction only ever removes cache entries. */
  lemma EvictDiskScope(files: Files, listing: seq<string>, budget: nat)
    ensures var r := EvictDisk(files, listing, budget);
      && r.files.Keys <= files.Keys
      && (forall name :: name in r.files ==> r.files[name] == files[name])
      && (forall name :: name in files && !HasXvcExtension(name) ==> name in r.files)
  {
    if budget > 0 {
      var order := OldestFirst(files, listing);
      var key := ByAge(files);
      SortBySorts(CacheListing(files, listing), key);
      forall name | name in order ensures HasXvcExtension(name) {
        assert name in multiset(order);
        assert name in CacheListing(files, listing);
        CacheListingScope(files, listing, name);
      }
      RemoveToFitScope(files, order, ListedTotal(files, order), budget);
    }
  }

  lemma {:induction false} CacheListingScope(files: Files, listing: seq<string>, name: string)
    requires name in CacheListing(files, listing)
    ensures name in CacheNames(files)
  {
    if listing != [] && name in CacheListing(files, listing[..|listing| - 1]) {
      CacheListingScope(files, listing[..|listing| - 1], name);
    }
  }

  lemma {:induction false} RemoveToFitScope(files: Files, order: seq<string>, total: nat, budget: nat)
    requires forall name :: name in order ==> HasXvcExtension(name)
    ensures var r := RemoveToFit(files, order, total, budget);
      && r.files.Keys <= files.Keys
      && (forall name :: name in r.files ==> r.files[name] == files[name])
      && (forall name :: name in files && !HasXvcExtension(name) ==> name in r.files)
  {
    if order != [] && total > budget {
      assert order[0] in order;
      RemoveToFitScope(files - {order[0]}, order[1..],
                       MemoryTier.SaturatingSub(total, SizeOf(files, order[0])), budget);
    }
  }
}
