/** Sums of a weight over the values of a finite map, and sizes of finite sets. */
module Totals {

  ghost function PickKey<K, V>(m: map<K, V>): K
    requires m != map[]
  {
    var k :| k in m;
    k
  }

  ghost function Total<K, V>(m: map<K, V>, weight: V -> nat): nat
    decreases |m|
  {
    if m == map[] then 0
    else
      var k := PickKey(m);
      weight(m[k]) + Total(m - {k}, weight)
  }

  lemma {:induction false} TotalRemove<K, V>(m: map<K, V>, k: K, weight: V -> nat)
    requires k in m
    ensures Total(m, weight) == weight(m[k]) + Total(m - {k}, weight)
    decreases |m|
  {
    var first := PickKey(m);
    if first != k {
      TotalRemove(m - {first}, k, weight);
      TotalRemove(m - {k}, first, weight);
      assert m - {first} - {k} == m - {k} - {first};
    }
  }

  lemma TotalPut<K, V>(m: map<K, V>, k: K, v: V, weight: V -> nat)
    ensures Total(m[k := v], weight) + (if k in m then weight(m[k]) else 0) == Total(m, weight) + weight(v)
  {
    TotalRemove(m[k := v], k, weight);
    assert m[k := v] - {k} == m - {k};
    if k in m {
      TotalRemove(m, k, weight);
    } else {
      assert m - {k} == m;
    }
  }

  lemma {:induction false} TotalZero<K, V>(m: map<K, V>, weight: V -> nat)
    requires forall k :: k in m ==> weight(m[k]) == 0
    ensures Total(m, weight) == 0
    decreases |m|
  {
    if m != map[] {
      TotalZero(m - {PickKey(m)}, weight);
    }
  }

  /** No part of a sum is greater than the sum. */
  lemma TotalCovers<K, V>(m: map<K, V>, k: K, weight: V -> nat)
    requires k in m
    ensures weight(m[k]) <= Total(m, weight)
  {
    TotalRemove(m, k, weight);
  }

  lemma {:induction false} TotalSplits<K, V>(m: map<K, V>, whole: V -> nat, part: V -> nat, rest: V -> nat)
    requires forall k :: k in m ==> whole(m[k]) == part(m[k]) + rest(m[k])
    ensures Total(m, whole) == Total(m, part) + Total(m, rest)
    decreases |m|
  {
    if m != map[] {
      TotalSplits(m - {PickKey(m)}, whole, part, rest);
    }
  }

  lemma {:induction false} SubsetSize<T>(a: set<T>, b: set<T>)
    requires a <= b
    ensures |a| <= |b|
    decreases |a|
  {
    if x :| x in a {
      SubsetSize(a - {x}, b - {x});
    }
  }
}
