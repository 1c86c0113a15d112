/** Sums over the values of a map, for the measures of the progress proofs. */
module Sums {

  ghost function Sum<K>(m: map<K, nat>): nat
    decreases |m|
  {
    if m == map[] then 0
    else
      var k :| k in m;
      m[k] + Sum(m - {k})
  }

  lemma {:induction false} SumSplit<K>(m: map<K, nat>, k: K)
    requires k in m
    ensures Sum(m) == m[k] + Sum(m - {k})
    decreases |m|
  {
    var j :| j in m && Sum(m) == m[j] + Sum(m - {j});
    if j != k {
      SumSplit(m - {j}, k);
      SumSplit(m - {k}, j);
      assert m - {j} - {k} == m - {k} - {j};
    }
  }

  lemma SumUpdate<K>(m: map<K, nat>, m': map<K, nat>, k: K)
    requires k in m && k in m' && m' == m[k := m'[k]]
    ensures Sum(m') + m[k] == Sum(m) + m'[k]
  {
    SumSplit(m, k);
    SumSplit(m', k);
    assert m' - {k} == m - {k};
  }
}
