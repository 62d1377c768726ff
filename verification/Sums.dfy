/** Sums over the values of a finite map. */
module Sums {

  ghost function Total<K>(m: map<K, int>): int {
    if m == map[] then 0
    else
      var k :| k in m;
      m[k] + Total(m - {k})
  }

  /** The sum does not depend on which key is taken out first. */
  lemma {:induction false} TotalRemove<K>(m: map<K, int>, k: K)
    requires k in m
    ensures Total(m) == m[k] + Total(m - {k})
    decreases |m|
  {
    var j :| j in m && Total(m) == m[j] + Total(m - {j});
    if j != k {
      TotalRemove(m - {j}, k);
      TotalRemove(m - {k}, j);
      assert m - {j} - {k} == m - {k} - {j};
    }
  }

  lemma TotalInsert<K>(m: map<K, int>, k: K, v: int)
    requires k !in m
    ensures Total(m[k := v]) == Total(m) + v
  {
    TotalRemove(m[k := v], k);
    assert m[k := v] - {k} == m;
  }

  /** Dropping entries of a map whose values are not negative cannot raise its sum. */
  lemma {:induction false} TotalMonotone<K>(small: map<K, int>, large: map<K, int>)
    requires forall k :: k in small ==> k in large && large[k] == small[k]
    requires forall k :: k in large ==> large[k] >= 0
    ensures Total(small) <= Total(large)
    decreases |large|
  {
    if large == map[] {
      assert small == map[];
    } else {
      var k :| k in large;
      TotalRemove(large, k);
      if k in small {
        TotalRemove(small, k);
        TotalMonotone(small - {k}, large - {k});
      } else {
        TotalMonotone(small, large - {k});
      }
    }
  }
}
