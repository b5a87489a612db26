/** Option, Result and Caller, shared by every module of the model. */
module Prelude {
  datatype Option<+T> = None | Some(value: T) {
    function GetOr(default: T): T { if None? then default else value }
  }

  datatype Result<+T, +E> = Ok(value: T) | Err(error: E)

  // One call of an operation that runs beside others, told apart from all of them.
  type Caller = nat

  function Min(a: int, b: int): int { if a <= b then a else b }

  function Max(a: int, b: int): int { if a >= b then a else b }
}

/** Sums over the values of a finite map, used to add up what every caller, feed or flow contributes. */
module Tally {
  ghost function Sum<K, V>(m: map<K, V>, f: V -> int): int
    decreases |m|
  {
    if m == map[] then 0
    else
      var k :| k in m;
      assert (m - {k}).Keys == m.Keys - {k};
      f(m[k]) + Sum(m - {k}, f)
  }

  // Any key may be taken out first.
  lemma {:induction false} SumRemove<K, V>(m: map<K, V>, k: K, f: V -> int)
    requires k in m
    ensures Sum(m, f) == f(m[k]) + Sum(m - {k}, f)
    decreases |m|
  {
    var k0 :| k0 in m && Sum(m, f) == f(m[k0]) + Sum(m - {k0}, f);
    if k0 != k {
      assert (m - {k}).Keys == m.Keys - {k} && (m - {k0}).Keys == m.Keys - {k0};
      SumRemove(m - {k0}, k, f);
      SumRemove(m - {k}, k0, f);
      assert m - {k0} - {k} == m - {k} - {k0};
    }
  }

  // Writing one entry changes the sum by the difference of the two entries.
  lemma SumPut<K, V>(m: map<K, V>, k: K, v: V, f: V -> int)
    ensures Sum(m[k := v], f) == Sum(m, f) - (if k in m then f(m[k]) else 0) + f(v)
  {
    var n := m[k := v];
    SumRemove(n, k, f);
    if k in m {
      SumRemove(m, k, f);
      assert n - {k} == m - {k};
    } else {
      assert n - {k} == m;
    }
  }

  // A pointwise linear law f = g + h carries over to the sums.
  lemma {:induction false} SumAdds<K, V>(m: map<K, V>, f: V -> int, g: V -> int, h: V -> int)
    requires forall k :: k in m ==> f(m[k]) == g(m[k]) + h(m[k])
    ensures Sum(m, f) == Sum(m, g) + Sum(m, h)
    decreases |m|
  {
    if m != map[] {
      var k :| k in m;
      assert (m - {k}).Keys == m.Keys - {k};
      SumRemove(m, k, f);
      SumRemove(m, k, g);
      SumRemove(m, k, h);
      SumAdds(m - {k}, f, g, h);
    }
  }

  // A pointwise bound carries over to the sums.
  lemma {:induction false} SumBelow<K, V>(m: map<K, V>, f: V -> int, g: V -> int)
    requires forall k :: k in m ==> f(m[k]) <= g(m[k])
    ensures Sum(m, f) <= Sum(m, g)
    decreases |m|
  {
    if m != map[] {
      var k :| k in m;
      assert (m - {k}).Keys == m.Keys - {k};
      SumRemove(m, k, f);
      SumRemove(m, k, g);
      SumBelow(m - {k}, f, g);
    }
  }
}
