/** Sums over the values of a finite map. */
module Sums {
  /** The sum of `weight` over the values of `m`. */
  ghost function Sum<K, V>(m: map<K, V>, weight: V -> nat): nat
    decreases |m|
  {
    if m == map[] then 0
    else
      var k :| k in m;
      weight(m[k]) + Sum(m - {k}, weight)
  }

  /** Any key may be taken out first. */
  lemma {:induction false} SumSplit<K, V>(m: map<K, V>, weight: V -> nat, k: K)
    requires k in m
    ensures Sum(m, weight) == weight(m[k]) + Sum(m - {k}, weight)
    decreases |m|
  {
    var first :| first in m && Sum(m, weight) == weight(m[first]) + Sum(m - {first}, weight);
    if first != k {
      SumSplit(m - {first}, weight, k);
      SumSplit(m - {k}, weight, first);
      assert m - {first} - {k} == m - {k} - {first};
    }
  }

  lemma SumUpdate<K, V>(m: map<K, V>, weight: V -> nat, k: K, v: V)
    ensures Sum(m[k := v], weight) == Sum(m, weight) + weight(v) - if k in m then weight(m[k]) else 0
  {
    SumSplit(m[k := v], weight, k);
    assert m[k := v] - {k} == m - {k};
    if k in m {
      SumSplit(m, weight, k);
    } else {
      assert m - {k} == m;
    }
  }

  lemma {:induction false} SumAtLeast<K, V>(m: map<K, V>, weight: V -> nat, k: K)
    requires k in m
    ensures weight(m[k]) <= Sum(m, weight)
  {
    SumSplit(m, weight, k);
  }

  /** A set of keys whose values all weigh something is no larger than the sum. */
  lemma {:induction false} SumCounts<K, V>(m: map<K, V>, weight: V -> nat, keys: set<K>)
    requires keys <= m.Keys && forall k <- keys :: weight(m[k]) > 0
    ensures |keys| <= Sum(m, weight)
    decreases |keys|
  {
    if keys != {} {
      var k :| k in keys;
      SumSplit(m, weight, k);
      SumCounts(m - {k}, weight, keys - {k});
    }
  }

  /** The keys hold all that weighs something, and no value weighs more than one. */
  lemma {:induction false} SumAtMost<K, V>(m: map<K, V>, weight: V -> nat, keys: set<K>)
    requires forall k <- m :: weight(m[k]) <= if k in keys then 1 else 0
    ensures Sum(m, weight) <= |keys|
    decreases |m|
  {
    if m != map[] {
      var k :| k in m;
      SumSplit(m, weight, k);
      SumAtMost(m - {k}, weight, keys - {k});
    }
  }

  lemma {:induction false} SumZero<K, V>(m: map<K, V>, weight: V -> nat)
    requires forall k <- m :: weight(m[k]) == 0
    ensures Sum(m, weight) == 0
    decreases |m|
  {
    if m != map[] {
      var k :| k in m;
      SumSplit(m, weight, k);
      SumZero(m - {k}, weight);
    }
  }

  /** A sum of one has exactly one value that weighs something. */
  lemma SumOne<K, V>(m: map<K, V>, weight: V -> nat) returns (k: K)
    requires Sum(m, weight) == 1
    ensures k in m && weight(m[k]) == 1
    ensures forall l <- m :: weight(m[l]) > 0 ==> l == k
  {
    if forall l <- m :: weight(m[l]) == 0 {
      SumZero(m, weight);
    }
    k :| k in m && weight(m[k]) > 0;
    SumSplit(m, weight, k);
    forall l <- m | l != k
      ensures weight(m[l]) == 0
    {
      SumAtLeast(m - {k}, weight, l);
    }
  }

  lemma Cardinality<T>(a: set<T>, b: set<T>)
    requires a <= b
    ensures |a| <= |b|
  {
    assert b == a + (b - a);
  }
}
