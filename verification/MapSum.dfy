/** Sums over the values of a map, in no particular order. */
module MapSum {
  /** The sum of `g` over the values of `m`. */
  ghost function Sum<K, V>(m: map<K, V>, g: V -> nat): nat
  {
    if m == map[] then 0
    else
      var k :| k in m;
      g(m[k]) + Sum(m - {k}, g)
  }

  /** Any key can be split off. */
  lemma {:induction false} SumSplit<K, V>(m: map<K, V>, g: V -> nat, k: K)
    requires k in m
    ensures Sum(m, g) == g(m[k]) + Sum(m - {k}, g)
    decreases |m|
  {
    var c :| c in m && Sum(m, g) == g(m[c]) + Sum(m - {c}, g);
    if c != k {
      SumSplit(m - {c}, g, k);
      SumSplit(m - {k}, g, c);
      assert m - {c} - {k} == m - {k} - {c};
    }
  }

  lemma SumPut<K, V>(m: map<K, V>, g: V -> nat, k: K, v: V)
    ensures Sum(m[k := v], g) == Sum(m - {k}, g) + g(v)
    ensures k in m ==> Sum(m[k := v], g) + g(m[k]) == Sum(m, g) + g(v)
    ensures k !in m ==> Sum(m[k := v], g) == Sum(m, g) + g(v)
  {
    SumSplit(m[k := v], g, k);
    assert m[k := v] - {k} == m - {k};
    if k in m { SumSplit(m, g, k); } else { assert m - {k} == m; }
  }

  /** Fewer keys, or smaller values, give no larger a sum. */
  lemma {:induction false} SumMonotone<K, V, W>(a: map<K, V>, g: V -> nat, b: map<K, W>, h: W -> nat)
    requires forall k :: k in a ==> k in b && g(a[k]) <= h(b[k])
    ensures Sum(a, g) <= Sum(b, h)
    decreases |a|
  {
    if a != map[] {
      var k :| k in a;
      SumSplit(a, g, k);
      SumSplit(b, h, k);
      SumMonotone(a - {k}, g, b - {k}, h);
    }
  }
}
