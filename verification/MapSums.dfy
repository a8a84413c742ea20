/** Sums of a weight over the rows of a table keyed by id. */
module MapSums {

  ghost function SumOver<K(!new), V>(m: map<K, V>, weight: V -> int): int
    decreases |m|
  {
    if m == map[] then 0
    else
      var k :| k in m;
      assert (m - {k}).Keys == m.Keys - {k};
      assert |m - {k}| == |m| - 1 by { assert |(m - {k}).Keys| == |m.Keys| - 1; }
      weight(m[k]) + SumOver(m - {k}, weight)
  }

  /** Any row can be taken out of the sum, not only the one the definition picks. */
  lemma {:induction false} SumPick<K(!new), V>(m: map<K, V>, weight: V -> int, k: K)
    requires k in m
    ensures SumOver(m, weight) == weight(m[k]) + SumOver(m - {k}, weight)
    decreases |m|
  {
    var j :| j in m && SumOver(m, weight) == weight(m[j]) + SumOver(m - {j}, weight);
    if j != k {
      assert |(m - {j}).Keys| == |m.Keys| - 1;
      assert |(m - {k}).Keys| == |m.Keys| - 1;
      SumPick(m - {j}, weight, k);
      SumPick(m - {k}, weight, j);
      assert m - {j} - {k} == m - {k} - {j};
    }
  }

  /** Writing a row changes the sum by exactly that row's change of weight. */
  lemma SumUpdate<K(!new), V>(m: map<K, V>, weight: V -> int, k: K, v: V)
    ensures SumOver(m[k := v], weight)
         == SumOver(m, weight) + weight(v) - (if k in m then weight(m[k]) else 0)
  {
    SumPick(m[k := v], weight, k);
    assert m[k := v] - {k} == m - {k};
    if k in m {
      SumPick(m, weight, k);
    } else {
      assert m - {k} == m;
    }
  }

  /** Weights that agree on every row give the same sum. */
  lemma {:induction false} SumCongruence<K(!new), V>(m: map<K, V>, f: V -> int, g: V -> int)
    requires forall k :: k in m ==> f(m[k]) == g(m[k])
    ensures SumOver(m, f) == SumOver(m, g)
    decreases |m|
  {
    if m != map[] {
      var k :| k in m;
      SumPick(m, f, k);
      SumPick(m, g, k);
      assert |(m - {k}).Keys| == |m.Keys| - 1;
      SumCongruence(m - {k}, f, g);
    }
  }
}
