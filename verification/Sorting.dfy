/** Stable sorting by a key, as `sort_by_key`, `sort_unstable` and `Order` provide it,
    and the rank counts that percentile selection relies on. */
module Sorting {

  ghost predicate Sorted<T(!new)>(xs: seq<T>, key: T -> real) {
    forall i, j :: 0 <= i < j < |xs| ==> key(xs[i]) <= key(xs[j])
  }

  function Insert<T>(x: T, xs: seq<T>, key: T -> real): (r: seq<T>)
    ensures |r| == |xs| + 1
  {
    if xs == [] || key(x) < key(xs[0]) then [x] + xs
    else [xs[0]] + Insert(x, xs[1..], key)
  }

  /** Insertion of the elements from the left; equal keys keep their order. */
  function SortBy<T>(xs: seq<T>, key: T -> real): (r: seq<T>)
    ensures |r| == |xs|
  {
    if xs == [] then [] else Insert(xs[|xs| - 1], SortBy(xs[..|xs| - 1], key), key)
  }

  lemma {:induction false} InsertPermutes<T(!new)>(x: T, xs: seq<T>, key: T -> real)
    ensures multiset(Insert(x, xs, key)) == multiset(xs) + multiset{x}
  {
    if xs == [] || key(x) < key(xs[0]) {
      assert multiset([x] + xs) == multiset(xs) + multiset{x};
    } else {
      InsertPermutes(x, xs[1..], key);
      assert xs == [xs[0]] + xs[1..];
    }
  }

  /** Everything in the list is at least `bound`. */
  ghost predicate AtLeast<T(!new)>(xs: seq<T>, key: T -> real, bound: real) {
    forall i :: 0 <= i < |xs| ==> bound <= key(xs[i])
  }

  lemma {:induction false} InsertSorts<T(!new)>(x: T, xs: seq<T>, key: T -> real)
    requires Sorted(xs, key)
    ensures Sorted(Insert(x, xs, key), key)
    ensures forall bound :: AtLeast(xs, key, bound) && bound <= key(x) ==> AtLeast(Insert(x, xs, key), key, bound)
  {
    if xs != [] && key(x) >= key(xs[0]) {
      InsertSorts(x, xs[1..], key);
      assert AtLeast(xs[1..], key, key(xs[0]));
    }
  }

  lemma {:induction false} SortBySorts<T(!new)>(xs: seq<T>, key: T -> real)
    ensures Sorted(SortBy(xs, key), key)
    ensures multiset(SortBy(xs, key)) == multiset(xs)
  {
    if xs != [] {
      var front := xs[..|xs| - 1];
      SortBySorts(front, key);
      InsertSorts(xs[|xs| - 1], SortBy(front, key), key);
      InsertPermutes(xs[|xs| - 1], SortBy(front, key), key);
      assert xs == front + [xs[|xs| - 1]];
    }
  }

  /** Number of positions whose element satisfies a predicate. */
  function Tally<T>(xs: seq<T>, p: T -> bool): nat {
    if xs == [] then 0 else Tally(xs[..|xs| - 1], p) + (if p(xs[|xs| - 1]) then 1 else 0)
  }

  lemma {:induction false} TallyConcat<T(!new)>(xs: seq<T>, ys: seq<T>, p: T -> bool)
    ensures Tally(xs + ys, p) == Tally(xs, p) + Tally(ys, p)
  {
    if ys == [] {
      assert xs + ys == xs;
    } else {
      assert (xs + ys)[..|xs + ys| - 1] == xs + ys[..|ys| - 1];
      TallyConcat(xs, ys[..|ys| - 1], p);
    }
  }

  lemma TallyRemove<T(!new)>(xs: seq<T>, i: nat, p: T -> bool)
    requires i < |xs|
    ensures Tally(xs, p) == Tally(xs[..i] + xs[i + 1..], p) + (if p(xs[i]) then 1 else 0)
  {
    assert xs == xs[..i + 1] + xs[i + 1..];
    TallyConcat(xs[..i + 1], xs[i + 1..], p);
    TallyConcat(xs[..i], xs[i + 1..], p);
    assert xs[..i + 1][..i] == xs[..i];
  }

  lemma RemoveFromMultiset<T(!new)>(xs: seq<T>, i: nat)
    requires i < |xs|
    ensures multiset(xs[..i] + xs[i + 1..]) == multiset(xs) - multiset{xs[i]}
  {
    assert xs == xs[..i] + [xs[i]] + xs[i + 1..];
    assert multiset(xs) == multiset(xs[..i]) + multiset{xs[i]} + multiset(xs[i + 1..]);
  }

  /** A tally depends only on the multiset of elements. */
  lemma {:induction false} TallyPermutation<T(!new)>(xs: seq<T>, ys: seq<T>, p: T -> bool)
    requires multiset(xs) == multiset(ys)
    ensures Tally(xs, p) == Tally(ys, p)
  {
    assert |xs| == |multiset(xs)| == |multiset(ys)| == |ys|;
    if xs != [] {
      var n := |xs| - 1;
      assert xs[n] in multiset(ys);
      var i :| 0 <= i < |ys| && ys[i] == xs[n];
      var rest := ys[..i] + ys[i + 1..];
      RemoveFromMultiset(xs, n);
      RemoveFromMultiset(ys, i);
      assert xs[..n] + xs[n + 1..] == xs[..n];
      TallyPermutation(xs[..n], rest, p);
      TallyRemove(ys, i, p);
    }
  }

  /** All hits lie in a known index range, so the tally is at most its width. */
  lemma {:induction false} TallyWithin<T(!new)>(xs: seq<T>, p: T -> bool, lo: nat, hi: nat)
    requires lo <= hi <= |xs|
    requires forall i :: 0 <= i < |xs| && p(xs[i]) ==> lo <= i < hi
    ensures Tally(xs, p) <= hi - lo
  {
    if xs != [] {
      var front := xs[..|xs| - 1];
      assert forall i :: 0 <= i < |front| ==> front[i] == xs[i];
      if hi == |xs| && lo < hi {
        TallyWithin(front, p, lo, hi - 1);
      } else if hi < |xs| {
        TallyWithin(front, p, lo, hi);
      } else {
        assert lo == hi == |xs|;
        TallyWithin(front, p, |front|, |front|);
      }
    }
  }

  /** Every position of a range hits, so the tally is at least its width. */
  lemma {:induction false} TallyCovers<T(!new)>(xs: seq<T>, p: T -> bool, lo: nat, hi: nat)
    requires lo <= hi <= |xs|
    requires forall i :: lo <= i < hi ==> p(xs[i])
    ensures Tally(xs, p) >= hi - lo
  {
    if xs != [] {
      var front := xs[..|xs| - 1];
      assert forall i :: 0 <= i < |front| ==> front[i] == xs[i];
      if hi == |xs| && lo < hi {
        TallyCovers(front, p, lo, hi - 1);
      } else if hi < |xs| {
        TallyCovers(front, p, lo, hi);
      }
    }
  }

  lemma {:induction false} TallyImplies<T(!new)>(xs: seq<T>, p: T -> bool, q: T -> bool)
    requires forall i :: 0 <= i < |xs| && p(xs[i]) ==> q(xs[i])
    ensures Tally(xs, p) <= Tally(xs, q)
  {
    if xs != [] {
      var front := xs[..|xs| - 1];
      assert forall i :: 0 <= i < |front| ==> front[i] == xs[i];
      TallyImplies(front, p, q);
    }
  }

  function Below<T>(key: T -> real, bound: real): T -> bool {
    x => key(x) < bound
  }

  function AtMost<T>(key: T -> real, bound: real): T -> bool {
    x => key(x) <= bound
  }

  function Above<T>(key: T -> real, bound: real): T -> bool {
    x => key(x) > bound
  }

  /** Where the element at position `i` of the sorted list ranks among all elements. */
  lemma Ranks<T(!new)>(xs: seq<T>, key: T -> real, i: nat)
    requires i < |xs|
    ensures Tally(xs, Below(key, key(SortBy(xs, key)[i]))) <= i
    ensures Tally(xs, AtMost(key, key(SortBy(xs, key)[i]))) >= i + 1
    ensures Tally(xs, Above(key, key(SortBy(xs, key)[i]))) <= |xs| - 1 - i
  {
    hide SortBy, Tally;
    var sorted := SortBy(xs, key);
    var bound := key(sorted[i]);
    SortBySorts(xs, key);
    TallyPermutation(xs, sorted, Below(key, bound));
    TallyPermutation(xs, sorted, AtMost(key, bound));
    TallyPermutation(xs, sorted, Above(key, bound));
    TallyWithin(sorted, Below(key, bound), 0, i);
    TallyCovers(sorted, AtMost(key, bound), 0, i + 1);
    TallyWithin(sorted, Above(key, bound), i + 1, |sorted|);
  }

  /** Sorting neither adds nor loses elements. */
  lemma SortByMembers<T(!new)>(xs: seq<T>, key: T -> real, x: T)
    ensures x in SortBy(xs, key) <==> x in xs
  {
    SortBySorts(xs, key);
    assert x in SortBy(xs, key) <==> x in multiset(SortBy(xs, key));
    assert x in xs <==> x in multiset(xs);
  }

  // ---- Stability ----

  /** The elements with one key, in order. */
  function WithKey<T>(xs: seq<T>, key: T -> real, bound: real): seq<T> {
    if xs == [] then []
    else (if key(xs[0]) == bound then [xs[0]] else []) + WithKey(xs[1..], key, bound)
  }

  lemma {:induction false} NoneWithKey<T(!new)>(xs: seq<T>, key: T -> real, bound: real)
    requires forall i :: 0 <= i < |xs| ==> bound < key(xs[i])
    ensures WithKey(xs, key, bound) == []
  {
    if xs != [] {
      NoneWithKey(xs[1..], key, bound);
    }
  }

  lemma {:induction false} WithKeyLast<T(!new)>(xs: seq<T>, x: T, key: T -> real, bound: real)
    ensures WithKey(xs + [x], key, bound) == WithKey(xs, key, bound) + (if key(x) == bound then [x] else [])
  {
    if xs == [] {
      assert (xs + [x])[1..] == [];
    } else {
      WithKeyLast(xs[1..], x, key, bound);
      assert (xs + [x])[1..] == xs[1..] + [x];
      assert (xs + [x])[0] == xs[0];
      var first, last := if key(xs[0]) == bound then [xs[0]] else [], if key(x) == bound then [x] else [];
      assert first + (WithKey(xs[1..], key, bound) + last) == (first + WithKey(xs[1..], key, bound)) + last;
    }
  }

  lemma WithKeyFirst<T(!new)>(x: T, xs: seq<T>, key: T -> real, bound: real)
    ensures WithKey([x] + xs, key, bound) == (if key(x) == bound then [x] else []) + WithKey(xs, key, bound)
  {
    assert ([x] + xs)[1..] == xs;
  }

  lemma SortedTail<T(!new)>(xs: seq<T>, key: T -> real)
    requires Sorted(xs, key) && xs != []
    ensures Sorted(xs[1..], key) && forall i :: 0 <= i < |xs| ==> key(xs[0]) <= key(xs[i])
  {
  }

  /** The new element goes behind those with its key. */
  lemma {:induction false} InsertStable<T(!new)>(x: T, xs: seq<T>, key: T -> real, bound: real)
    requires Sorted(xs, key)
    ensures WithKey(Insert(x, xs, key), key, bound) == WithKey(xs, key, bound) + (if key(x) == bound then [x] else [])
  {
    hide Sorted, WithKey;
    if xs == [] {
      WithKeyFirst(x, xs, key, bound);
      NoneWithKey(xs, key, bound);
    } else {
      SortedTail(xs, key);
      if key(x) < key(xs[0]) {
        WithKeyFirst(x, xs, key, bound);
        if key(x) == bound { NoneWithKey(xs, key, bound); }
      } else {
        InsertStable(x, xs[1..], key, bound);
        WithKeyFirst(xs[0], xs[1..], key, bound);
        WithKeyFirst(xs[0], Insert(x, xs[1..], key), key, bound);
        assert xs == [xs[0]] + xs[1..];
      }
    }
  }

  /** Elements with equal keys keep their order. */
  lemma {:induction false} SortByStable<T(!new)>(xs: seq<T>, key: T -> real, bound: real)
    ensures WithKey(SortBy(xs, key), key, bound) == WithKey(xs, key, bound)
  {
    if xs != [] {
      var front, last := xs[..|xs| - 1], xs[|xs| - 1];
      SortByStable(front, key, bound);
      SortBySorts(front, key);
      InsertStable(last, SortBy(front, key), key, bound);
      WithKeyLast(front, last, key, bound);
      assert xs == front + [last];
    }
  }
}
