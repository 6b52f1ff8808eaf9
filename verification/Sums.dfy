/** Sums over finite maps. */
module Sums {

  ghost function MapSum<K>(m: map<K, nat>): nat {
    if m == map[] then 0
    else
      var k :| k in m;
      m[k] + MapSum(m - {k})
  }

  /** Any key can be taken out first. */
  lemma {:induction false} MapSumRemove<K>(m: map<K, nat>, k: K)
    requires k in m
    ensures MapSum(m) == m[k] + MapSum(m - {k})
    decreases |m|
  {
    var c :| c in m && MapSum(m) == m[c] + MapSum(m - {c});
    if c != k {
      MapSumRemove(m - {c}, k);
      MapSumRemove(m - {k}, c);
      assert m - {c} - {k} == m - {k} - {c};
    }
  }

  function Lookup<K>(m: map<K, nat>, k: K): nat {
    if k in m then m[k] else 0
  }

  /** Writing one key moves the sum by the change at that key. */
  lemma MapSumUpdate<K>(m: map<K, nat>, k: K, v: nat)
    ensures MapSum(m[k := v]) == MapSum(m) - Lookup(m, k) + v
    ensures Lookup(m, k) <= MapSum(m)
  {
    MapSumRemove(m[k := v], k);
    assert m[k := v] - {k} == m - {k};
    if k in m {
      MapSumRemove(m, k);
    } else {
      assert m - {k} == m;
    }
  }

  lemma TwoEntries<K>(m: map<K, nat>, a: K, b: K)
    requires a != b
    ensures Lookup(m, a) + Lookup(m, b) <= MapSum(m)
  {
    MapSumUpdate(m, a, 0);
    MapSumUpdate(m[a := 0], b, 0);
  }
}
