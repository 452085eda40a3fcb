/** Sums over finite maps and sets, independent of the order of the elements. */
module Sums {

  ghost function Sum<K(!new)>(m: map<K, int>): int {
    if m == map[] then 0
    else
      var k :| k in m;
      m[k] + Sum(m - {k})
  }

  lemma {:induction false} SumTake<K(!new)>(m: map<K, int>, k: K)
    requires k in m
    ensures Sum(m) == m[k] + Sum(m - {k})
    decreases |m|
  {
    var j :| j in m && Sum(m) == m[j] + Sum(m - {j});
    if j != k {
      SumTake(m - {j}, k);
      SumTake(m - {k}, j);
      assert m - {j} - {k} == m - {k} - {j};
    }
  }

  lemma SumPut<K(!new)>(m: map<K, int>, k: K, v: int)
    ensures Sum(m[k := v]) == v + Sum(m - {k})
    ensures Sum(m[k := v]) == Sum(m) + v - (if k in m then m[k] else 0)
  {
    SumTake(m[k := v], k);
    assert m[k := v] - {k} == m - {k};
    if k in m {
      SumTake(m, k);
    } else {
      assert m - {k} == m;
    }
  }

  /** Sums over two maps with the same keys keep the order of their values. */
  lemma {:induction false} SumMonotone<K(!new)>(m: map<K, int>, n: map<K, int>)
    requires m.Keys == n.Keys && forall k :: k in m ==> m[k] <= n[k]
    ensures Sum(m) <= Sum(n)
    decreases |m|
  {
    if k :| k in m {
      SumTake(m, k);
      SumTake(n, k);
      SumMonotone(m - {k}, n - {k});
    } else {
      assert m == n;
    }
  }

  lemma {:induction false} SumNonNegative<K(!new)>(m: map<K, int>)
    requires forall k :: k in m ==> m[k] >= 0
    ensures Sum(m) >= 0
    decreases |m|
  {
    if k :| k in m {
      SumTake(m, k);
      SumNonNegative(m - {k});
    } else {
      assert m == map[];
    }
  }

  /** The sum of the values at the keys in `s`. */
  ghost function Total<K(!new)>(m: map<K, int>, s: set<K>): int {
    Sum(map k | k in s && k in m :: m[k])
  }

  lemma TotalNone<K(!new)>(m: map<K, int>)
    ensures Total(m, {}) == 0
  {
    var none: set<K> := {};
    TotalUnion(m, none, none);
    assert none + none == none;
  }

  lemma TotalAdd<K(!new)>(m: map<K, int>, s: set<K>, k: K)
    requires k in m && k !in s
    ensures Total(m, s + {k}) == Total(m, s) + m[k]
  {
    var r := map j | j in s + {k} && j in m :: m[j];
    SumTake(r, k);
    assert r - {k} == map j | j in s && j in m :: m[j];
  }

  lemma {:induction false} TotalUnion<K(!new)>(m: map<K, int>, s: set<K>, t: set<K>)
    requires s !! t && t <= m.Keys
    ensures Total(m, s + t) == Total(m, s) + Total(m, t)
    decreases |t|
  {
    if k :| k in t {
      TotalUnion(m, s, t - {k});
      TotalAdd(m, s + (t - {k}), k);
      TotalAdd(m, t - {k}, k);
      assert s + (t - {k}) + {k} == s + t;
      assert t - {k} + {k} == t;
    } else {
      assert t == {} && s + t == s;
    }
  }

  lemma TotalMonotone<K(!new)>(m: map<K, int>, s: set<K>, t: set<K>)
    requires s <= t <= m.Keys && forall k :: k in m ==> m[k] >= 0
    ensures Total(m, s) <= Total(m, t)
  {
    TotalUnion(m, s, t - s);
    assert s + (t - s) == t;
    SumNonNegative(map k | k in t - s && k in m :: m[k]);
  }
}
