/** Sums over finite maps and counts over finite job tables, with the one-key
    update laws that every accounting proof uses. */
module FiniteMaps {

  /** Sum of all values of a finite map. */
  ghost function Sum<K(!new)>(m: map<K, nat>): nat
    decreases |m|
  {
    if m == map[] then 0
    else
      var k :| k in m;
      m[k] + Sum(m - {k})
  }

  /** The sum does not depend on the key that is taken off first. */
  lemma {:induction false} SumSplit<K(!new)>(m: map<K, nat>, k: K)
    requires k in m
    ensures Sum(m) == m[k] + Sum(m - {k})
    decreases |m|
  {
    var j :| j in m && Sum(m) == m[j] + Sum(m - {j});
    if j != k {
      SumSplit(m - {j}, k);
      SumSplit(m - {k}, j);
      assert m - {j} - {k} == m - {k} - {j};
    }
  }

  lemma SumInsert<K(!new)>(m: map<K, nat>, k: K, v: nat)
    ensures Sum(m[k := v]) == v + Sum(m - {k})
  {
    SumSplit(m[k := v], k);
    assert m[k := v] - {k} == m - {k};
  }

  /** A map of small values: the sum of `|m|` copies of one value. */
  lemma {:induction false} SumUniform<K(!new)>(m: map<K, nat>, v: nat)
    requires forall k :: k in m ==> m[k] == v
    ensures Sum(m) == v * |m|
    decreases |m|
  {
    if m != map[] {
      var k :| k in m;
      SumSplit(m, k);
      SumUniform(m - {k}, v);
      assert |m - {k}| == |m| - 1 by { assert (m - {k}).Keys == m.Keys - {k}; }
      assert v * |m| == v + v * (|m| - 1);
    }
  }

  /** The keys whose value satisfies a predicate. */
  ghost function Hits<K(!new), V(!new)>(m: map<K, V>, p: V -> bool): set<K> {
    set k | k in m && p(m[k])
  }

  /** Number of keys whose value satisfies a predicate. */
  ghost function Count<K(!new), V(!new)>(m: map<K, V>, p: V -> bool): nat {
    |Hits(m, p)|
  }

  /** Changing one key moves a count by at most that key's own contribution. */
  lemma CountUpdate<K(!new), V(!new)>(m: map<K, V>, k: K, v: V, p: V -> bool)
    ensures Count(m[k := v], p)
         == Count(m, p) - (if k in m && p(m[k]) then 1 else 0) + (if p(v) then 1 else 0)
  {
    var m' := m[k := v];
    var rest := Hits(m, p) - {k};
    HitsApart(m, k, v, p);
    if k in m && p(m[k]) {
      assert Hits(m, p) == rest + {k};
    } else {
      assert Hits(m, p) == rest;
    }
    if p(v) {
      assert Hits(m', p) == rest + {k};
    } else {
      assert Hits(m', p) == rest;
    }
  }

  lemma HitsApart<K(!new), V(!new)>(m: map<K, V>, k: K, v: V, p: V -> bool)
    ensures Hits(m[k := v], p) - {k} == Hits(m, p) - {k}
  {
    forall j ensures j in Hits(m[k := v], p) - {k} <==> j in Hits(m, p) - {k} {
      if j != k {
        assert j in m[k := v] <==> j in m;
      }
    }
  }
}
