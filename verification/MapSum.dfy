/** Sums of an integer measure over the values of a finite map. */
module MapSum {
  import opened Arithmetic

  ghost function Sum<K, V>(m: map<K, V>, f: V -> int): int
    decreases |m|
  {
    if m == map[] then 0
    else
      var k :| k in m;
      assert (m - {k}).Keys == m.Keys - {k};
      f(m[k]) + Sum(m - {k}, f)
  }

  /** The measure at one key; an absent key weighs nothing. */
  ghost function At<K, V>(m: map<K, V>, k: K, f: V -> int): int {
    if k in m then f(m[k]) else 0
  }

  /** The order in which the sum visits the keys does not matter. */
  lemma {:induction false} SumRemove<K, V>(m: map<K, V>, k: K, f: V -> int)
    requires k in m
    ensures Sum(m, f) == f(m[k]) + Sum(m - {k}, f)
    decreases |m|
  {
    var j :| j in m && Sum(m, f) == f(m[j]) + Sum(m - {j}, f);
    assert (m - {j}).Keys == m.Keys - {j};
    assert (m - {k}).Keys == m.Keys - {k};
    if j != k {
      SumRemove(m - {j}, k, f);
      SumRemove(m - {k}, j, f);
      assert m - {j} - {k} == m - {k} - {j};
    }
  }

  /** Writing one key changes the sum by exactly the change at that key. */
  lemma SumUpdate<K, V>(m: map<K, V>, k: K, v: V, f: V -> int)
    ensures Sum(m[k := v], f) == Sum(m, f) - At(m, k, f) + f(v)
  {
    SumRemove(m[k := v], k, f);
    assert m[k := v] - {k} == m - {k};
    if k in m {
      SumRemove(m, k, f);
    } else {
      assert m - {k} == m;
    }
  }

  lemma {:induction false} SumNonNegative<K, V>(m: map<K, V>, f: V -> int)
    requires forall k <- m :: f(m[k]) >= 0
    ensures Sum(m, f) >= 0
    decreases |m|
  {
    if m != map[] {
      var k :| k in m && Sum(m, f) == f(m[k]) + Sum(m - {k}, f);
      assert (m - {k}).Keys == m.Keys - {k};
      SumNonNegative(m - {k}, f);
    }
  }

  /** With non-negative weights, no single key outweighs the sum. */
  lemma SumMember<K, V>(m: map<K, V>, k: K, f: V -> int)
    requires forall j <- m :: f(m[j]) >= 0
    requires k in m
    ensures f(m[k]) <= Sum(m, f)
  {
    SumRemove(m, k, f);
    SumNonNegative(m - {k}, f);
  }

  lemma SumZero<K, V>(m: map<K, V>, f: V -> int)
    requires forall k <- m :: f(m[k]) == 0
    ensures Sum(m, f) == 0
  {
    SumShift(m, f, f, f, 1);
  }

  /** If every weight grows by d times another weight, so does the sum. */
  lemma {:induction false} SumShift<K, V>(m: map<K, V>, f: V -> int, g: V -> int, h: V -> int, d: int)
    requires forall k <- m :: g(m[k]) == f(m[k]) + h(m[k]) * d
    ensures Sum(m, g) == Sum(m, f) + Sum(m, h) * d
    decreases |m|
  {
    if m != map[] {
      var k :| k in m;
      assert (m - {k}).Keys == m.Keys - {k};
      var rest := m - {k};
      SumShift(rest, f, g, h, d);
      SumRemove(m, k, f);
      SumRemove(m, k, g);
      SumRemove(m, k, h);
      Distribute(h(m[k]), Sum(rest, h), d);
    }
  }
}
