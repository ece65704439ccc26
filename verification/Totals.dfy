/** Sums over the rows of a table. A table is a finite map from key to row. */
module Totals {

  /** The sum of the values of a finite map. */
  ghost function Total<K(!new)>(m: map<K, int>): int
    decreases |m|
  {
    if m == map[] then 0
    else
      var k :| k in m;
      m[k] + Total(m - {k})
  }

  /** Any key may be taken out first. */
  lemma {:induction false} TotalRemove<K(!new)>(m: map<K, int>, k: K)
    requires k in m
    ensures Total(m) == m[k] + Total(m - {k})
    decreases |m|
  {
    var j :| j in m && Total(m) == m[j] + Total(m - {j});
    if j != k {
      TotalRemove(m - {j}, k);
      TotalRemove(m - {k}, j);
      assert m - {j} - {k} == m - {k} - {j};
    }
  }

  lemma TotalUpdate<K(!new)>(m: map<K, int>, k: K, v: int)
    ensures Total(m[k := v]) == Total(m) - (if k in m then m[k] else 0) + v
  {
    TotalRemove(m[k := v], k);
    assert m[k := v] - {k} == m - {k};
    if k in m {
      TotalRemove(m, k);
    } else {
      assert m - {k} == m;
    }
  }

  /** The sum of weight `w` over the rows of a table. */
  ghost function Sum<K(!new), V>(rows: map<K, V>, w: V -> int): int {
    Total(map k | k in rows :: w(rows[k]))
  }

  /** Writing one row moves the sum by the change of that row's weight. */
  lemma SumUpdate<K(!new), V>(rows: map<K, V>, k: K, v: V, w: V -> int)
    ensures Sum(rows[k := v], w) == Sum(rows, w) - (if k in rows then w(rows[k]) else 0) + w(v)
  {
    var m := map j | j in rows :: w(rows[j]);
    var rows' := rows[k := v];
    assert (map j | j in rows' :: w(rows'[j])) == m[k := w(v)];
    TotalUpdate(m, k, w(v));
  }

  lemma SumRemove<K(!new), V>(rows: map<K, V>, k: K, w: V -> int)
    requires k in rows
    ensures Sum(rows, w) == w(rows[k]) + Sum(rows - {k}, w)
  {
    var m := map j | j in rows :: w(rows[j]);
    var rest := rows - {k};
    assert (map j | j in rest :: w(rest[j])) == m - {k};
    TotalRemove(m, k);
  }

  lemma SumEmpty<K(!new), V>(w: V -> int)
    ensures Sum<K, V>(map[], w) == 0
  {
    var none: map<K, V> := map[];
    assert (map k | k in none :: w(none[k])) == map[];
  }

  // ---- the same for reals ---------------------------------------------------------------------

  ghost function RealTotal<K(!new)>(m: map<K, real>): real
    decreases |m|
  {
    if m == map[] then 0.0
    else
      var k :| k in m;
      m[k] + RealTotal(m - {k})
  }

  lemma {:induction false} RealTotalRemove<K(!new)>(m: map<K, real>, k: K)
    requires k in m
    ensures RealTotal(m) == m[k] + RealTotal(m - {k})
    decreases |m|
  {
    var j :| j in m && RealTotal(m) == m[j] + RealTotal(m - {j});
    if j != k {
      RealTotalRemove(m - {j}, k);
      RealTotalRemove(m - {k}, j);
      assert m - {j} - {k} == m - {k} - {j};
    }
  }
}
