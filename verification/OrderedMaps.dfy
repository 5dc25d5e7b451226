/** JavaScript's Map: entries in insertion order, an existing key keeps its place. */
module OrderedMaps {

  predicate Has<K(==), V>(m: seq<(K, V)>, k: K) {
    exists i :: 0 <= i < |m| && m[i].0 == k
  }

  function Set<K(==), V>(m: seq<(K, V)>, k: K, v: V): seq<(K, V)> {
    if m == [] then [(k, v)]
    else if m[0].0 == k then [(k, v)] + m[1..]
    else [m[0]] + Set(m[1..], k, v)
  }

  function Delete<K(==), V>(m: seq<(K, V)>, k: K): seq<(K, V)> {
    if m == [] then []
    else if m[0].0 == k then m[1..]
    else [m[0]] + Delete(m[1..], k)
  }

  function Values<K, V>(m: seq<(K, V)>): (r: seq<V>)
    ensures |r| == |m|
  {
    seq(|m|, i requires 0 <= i < |m| => m[i].1)
  }

  /** A new key goes to the end. */
  lemma {:induction false} SetAppends<K, V>(m: seq<(K, V)>, k: K, v: V)
    requires !Has(m, k)
    ensures Set(m, k, v) == m + [(k, v)]
  {
    if m != [] {
      assert m[0].0 != k;
      forall i | 0 <= i < |m[1..]| ensures m[1..][i].0 != k {
        assert m[i + 1].0 != k;
      }
      SetAppends(m[1..], k, v);
    }
  }

  /** A known key is replaced where it is. */
  lemma {:induction false} SetReplacesLast<K, V>(m: seq<(K, V)>, k: K, v: V)
    requires m != [] && m[|m| - 1].0 == k && !Has(m[..|m| - 1], k)
    ensures Set(m, k, v) == m[..|m| - 1] + [(k, v)]
  {
    if |m| > 1 {
      var front, tail := m[..|m| - 1], m[1..];
      assert front[0].0 != k;
      assert tail[..|tail| - 1] == front[1..];
      forall i | 0 <= i < |front[1..]| ensures front[1..][i].0 != k {
        assert front[i + 1].0 != k;
      }
      SetReplacesLast(tail, k, v);
    }
  }

  lemma DeleteFirst<K, V>(m: seq<(K, V)>, k: K)
    requires m != [] && m[0].0 == k
    ensures Delete(m, k) == m[1..]
  {
  }
}
