/**
 * Sums of integer values over finite maps, used to state the portfolio
 * aggregates of the risk manager. The sum picks keys in an arbitrary order;
 * `SumRemove` shows that the order does not matter.
 */
module MapSums {

  /** The sum of `m[k]` over the keys `ks`. */
  ghost function SumOn<K>(m: map<K, int>, ks: set<K>): int
    requires ks <= m.Keys
    decreases ks
  {
    if ks == {} then 0
    else
      var k :| k in ks;
      m[k] + SumOn(m, ks - {k})
  }

  /** The sum of all values of `m`. */
  ghost function Sum<K>(m: map<K, int>): int {
    SumOn(m, m.Keys)
  }

  /** Any key can be taken out first. */
  lemma {:induction false} SumOnRemove<K>(m: map<K, int>, ks: set<K>, k: K)
    requires ks <= m.Keys && k in ks
    ensures SumOn(m, ks) == m[k] + SumOn(m, ks - {k})
    decreases ks
  {
    var j :| j in ks && SumOn(m, ks) == m[j] + SumOn(m, ks - {j});
    if j != k {
      SumOnRemove(m, ks - {j}, k);
      SumOnRemove(m, ks - {k}, j);
      assert ks - {j} - {k} == ks - {k} - {j};
    }
  }

  lemma SumRemove<K>(m: map<K, int>, k: K)
    requires k in m
    ensures Sum(m) == m[k] + SumOn(m, m.Keys - {k})
  {
    SumOnRemove(m, m.Keys, k);
  }

  /** Two maps that agree on `ks` have the same sum over `ks`. */
  lemma {:induction false} SumOnAgree<K>(m1: map<K, int>, m2: map<K, int>, ks: set<K>)
    requires ks <= m1.Keys && ks <= m2.Keys
    requires forall k :: k in ks ==> m1[k] == m2[k]
    ensures SumOn(m1, ks) == SumOn(m2, ks)
    decreases ks
  {
    if ks != {} {
      var k :| k in ks;
      SumOnRemove(m1, ks, k);
      SumOnRemove(m2, ks, k);
      SumOnAgree(m1, m2, ks - {k});
    }
  }

  /** Overwriting (or inserting) one entry moves the sum by the difference. */
  lemma SumUpdate<K>(m: map<K, int>, k: K, v: int)
    ensures Sum(m[k := v]) == Sum(m) - (if k in m then m[k] else 0) + v
  {
    var m' := m[k := v];
    SumOnRemove(m', m'.Keys, k);
    assert m'.Keys - {k} == m.Keys - {k};
    SumOnAgree(m', m, m.Keys - {k});
    if k in m {
      SumOnRemove(m, m.Keys, k);
    } else {
      assert m.Keys - {k} == m.Keys;
    }
  }

  /** A sum of non-negative values is non-negative. */
  lemma {:induction false} SumOnNonNegative<K>(m: map<K, int>, ks: set<K>)
    requires ks <= m.Keys
    requires forall k :: k in ks ==> m[k] >= 0
    ensures SumOn(m, ks) >= 0
    decreases ks
  {
    if ks != {} {
      var k :| k in ks;
      SumOnRemove(m, ks, k);
      SumOnNonNegative(m, ks - {k});
    }
  }

  /** A sum of values that are each 0 or 1 is at most the number of keys. */
  lemma {:induction false} SumOnCount<K>(m: map<K, int>, ks: set<K>)
    requires ks <= m.Keys
    requires forall k :: k in ks ==> 0 <= m[k] <= 1
    ensures 0 <= SumOn(m, ks) <= |ks|
    decreases ks
  {
    if ks != {} {
      var k :| k in ks;
      SumOnRemove(m, ks, k);
      SumOnCount(m, ks - {k});
    }
  }
}
