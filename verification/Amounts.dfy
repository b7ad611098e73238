/** Sums over tables of amounts, in whatever order they are taken. */
module Amounts {

  ghost function SumOf<K(!new)>(m: map<K, nat>): nat {
    if m == map[] then 0
    else
      var k :| k in m;
      m[k] + SumOf(m - {k})
  }

  lemma {:induction false} SumOfRemove<K(!new)>(m: map<K, nat>, k: K)
    requires k in m
    ensures SumOf(m) == m[k] + SumOf(m - {k})
  {
    var j :| j in m && SumOf(m) == m[j] + SumOf(m - {j});
    if j != k {
      SumOfRemove(m - {j}, k);
      SumOfRemove(m - {k}, j);
      assert m - {j} - {k} == m - {k} - {j};
    }
  }

  lemma {:induction false} SumOfAdd<K(!new)>(m: map<K, nat>, k: K, v: nat)
    requires k !in m
    ensures SumOf(m[k := v]) == SumOf(m) + v
  {
    SumOfRemove(m[k := v], k);
    assert m[k := v] - {k} == m;
  }

  lemma {:induction false} SumOfJoin<K(!new)>(a: map<K, nat>, b: map<K, nat>)
    requires a.Keys !! b.Keys
    ensures SumOf(a + b) == SumOf(a) + SumOf(b)
    decreases b
  {
    hide SumOf;
    if b == map[] {
      NoSum<K>();
      assert a + b == a;
    } else {
      var k :| k in b;
      SumOfJoin(a, b - {k});
      SumOfRemove(b, k);
      SumOfRemove(a + b, k);
      assert (a + b) - {k} == a + (b - {k});
    }
  }

  lemma {:induction false} NoSum<K(!new)>()
    ensures SumOf<K>(map[]) == 0
  {
  }

  lemma {:induction false} CountJoin<K(!new), V(!new)>(a: map<K, V>, b: map<K, V>)
    requires a.Keys !! b.Keys
    ensures |a + b| == |a| + |b|
  {
    assert (a + b).Keys == a.Keys + b.Keys;
    assert |a.Keys + b.Keys| == |a.Keys| + |b.Keys|;
  }
}
