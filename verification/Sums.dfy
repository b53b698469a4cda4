/** Sums over the values of a finite map. */
module Sums {

  ghost function Pick<K, V>(m: map<K, V>): (k: K)
    requires |m| > 0
    ensures k in m
  {
    var k :| k in m;
    k
  }

  ghost function Without<K, V>(m: map<K, V>, k: K): (r: map<K, V>)
    requires k in m
    ensures |r| < |m|
  {
    assert (m - {k}).Keys == m.Keys - {k};
    m - {k}
  }

  ghost function Sum<K, V>(m: map<K, V>, f: V -> int): int
    decreases |m|
  {
    if |m| == 0 then 0 else f(m[Pick(m)]) + Sum(Without(m, Pick(m)), f)
  }

  /** Any entry can be taken out first. */
  lemma {:induction false} SumWithout<K, V>(m: map<K, V>, f: V -> int, k: K)
    requires k in m
    ensures Sum(m, f) == f(m[k]) + Sum(Without(m, k), f)
    decreases |m|
  {
    var first := Pick(m);
    if first != k {
      SumWithout(Without(m, first), f, k);
      SumWithout(Without(m, k), f, first);
      assert Without(Without(m, first), k) == Without(Without(m, k), first);
    }
  }

  lemma SumAdd<K, V>(m: map<K, V>, f: V -> int, k: K, v: V)
    requires k !in m
    ensures Sum(m[k := v], f) == Sum(m, f) + f(v)
  {
    SumWithout(m[k := v], f, k);
    assert Without(m[k := v], k) == m;
  }

  lemma SumReplace<K, V>(m: map<K, V>, f: V -> int, k: K, v: V)
    requires k in m
    ensures Sum(m[k := v], f) == Sum(m, f) - f(m[k]) + f(v)
  {
    SumWithout(m, f, k);
    SumWithout(m[k := v], f, k);
    assert Without(m[k := v], k) == Without(m, k);
  }

  lemma SumReplaceTwo<K, V>(m: map<K, V>, f: V -> int, j: K, v: V, k: K, w: V)
    requires j in m && k in m && j != k
    ensures Sum(m[j := v][k := w], f) == Sum(m, f) - f(m[j]) + f(v) - f(m[k]) + f(w)
  {
    SumReplace(m, f, j, v);
    SumReplace(m[j := v], f, k, w);
  }
}
