/** Small shared vocabulary: optional values and sums over finite maps. */
module Common {

  datatype Option<+T> = None | Some(value: T)

  function Max(a: int, b: int): int { if a >= b then a else b }

  function MaxReal(a: real, b: real): real { if a >= b then a else b }

  function Abs(x: real): real { if x >= 0.0 then x else -x }

  /** The sum of `f(m[k])` over all keys `k` of `m`. */
  ghost function Total<K, V>(m: map<K, V>, f: V -> real): real
    decreases |m|
  {
    if m == map[] then 0.0
    else
      var k :| k in m;
      f(m[k]) + Total(m - {k}, f)
  }

  /** The order in which `Total` visits the keys does not matter. */
  lemma {:induction false} TotalSplit<K, V>(m: map<K, V>, f: V -> real, k: K)
    requires k in m
    ensures Total(m, f) == f(m[k]) + Total(m - {k}, f)
    decreases |m|
  {
    var j :| j in m && Total(m, f) == f(m[j]) + Total(m - {j}, f);
    if j == k {
    } else {
      TotalSplit(m - {j}, f, k);
      TotalSplit(m - {k}, f, j);
      assert m - {j} - {k} == m - {k} - {j};
    }
  }

  /** Updating one key changes the sum by the change at that key. */
  lemma TotalUpdate<K, V>(m: map<K, V>, f: V -> real, k: K, v: V)
    ensures Total(m[k := v], f) == Total(m, f) + f(v) - (if k in m then f(m[k]) else 0.0)
  {
    TotalSplit(m[k := v], f, k);
    assert m[k := v] - {k} == m - {k};
    if k in m {
      TotalSplit(m, f, k);
    } else {
      assert m - {k} == m;
    }
  }

  /** Count one more under a key. */
  function Bump<K>(m: map<K, nat>, k: K): map<K, nat> { m[k := if k in m then m[k] + 1 else 1] }

  function AsReal(n: nat): real { n as real }

  lemma BumpTotal<K>(m: map<K, nat>, k: K)
    ensures Total(Bump(m, k), AsReal) == Total(m, AsReal) + 1.0
  {
    TotalUpdate(m, AsReal, k, if k in m then m[k] + 1 else 1);
  }
}
