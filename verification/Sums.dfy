/** Sums over finite maps. */
module Sums {

  ghost function MapSum<K(!new)>(m: map<K, nat>): nat
    decreases |m|
  {
    if m == map[] then 0
    else
      var k :| k in m;
      assert |m - {k}| < |m| by { Smaller(m, k); }
      m[k] + MapSum(m - {k})
  }

  lemma {:induction false} Smaller<K, V>(m: map<K, V>, k: K)
    requires k in m
    ensures |m - {k}| == |m| - 1
  {
    assert (m - {k}).Keys == m.Keys - {k};
    assert |m.Keys - {k}| == |m.Keys| - 1;
  }

  /** Any key may be taken out first. */
  lemma {:induction false} SumRemove<K(!new)>(m: map<K, nat>, k: K)
    requires k in m
    ensures MapSum(m) == m[k] + MapSum(m - {k})
    decreases |m|
  {
    var j :| j in m && MapSum(m) == m[j] + MapSum(m - {j});
    if j != k {
      Smaller(m, j);
      Smaller(m, k);
      SumRemove(m - {j}, k);
      SumRemove(m - {k}, j);
      assert (m - {j}) - {k} == (m - {k}) - {j};
    }
  }

  function Get<K>(m: map<K, nat>, k: K): nat { if k in m then m[k] else 0 }

  lemma {:induction false} SumUpdate<K(!new)>(m: map<K, nat>, k: K, v: nat)
    ensures MapSum(m[k := v]) + Get(m, k) == MapSum(m) + v
  {
    var n := m[k := v];
    SumRemove(n, k);
    assert n - {k} == m - {k};
    if k in m { SumRemove(m, k); } else { assert m - {k} == m; }
  }
}
