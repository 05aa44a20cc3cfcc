/** Maxima of finite sets of clocks, and sums over the nodes of a cluster. */
module Sums {

  ghost function MaxOf(s: set<nat>): (r: nat)
    ensures forall x :: x in s ==> x <= r
    ensures r == 0 || r in s
  {
    if s == {} then 0
    else
      var x :| x in s;
      var rest := MaxOf(s - {x});
      assert s == s - {x} + {x};
      if x > rest then x else rest
  }

  ghost function Sum<K>(m: map<K, nat>): nat
    decreases |m|
  {
    if m == map[] then 0
    else
      var k :| k in m;
      Smaller(m, k);
      m[k] + Sum(m - {k})
  }

  lemma Smaller<K, V>(m: map<K, V>, k: K)
    requires k in m
    ensures |m - {k}| < |m|
  {
    assert (m - {k}).Keys == m.Keys - {k};
  }

  /** The order of summation does not matter. */
  lemma {:induction false} SumSplit<K>(m: map<K, nat>, k: K)
    requires k in m
    ensures Sum(m) == m[k] + Sum(m - {k})
    decreases |m|
  {
    var first :| first in m && Sum(m) == m[first] + Sum(m - {first});
    if first != k {
      Smaller(m, first);
      Smaller(m, k);
      SumSplit(m - {first}, k);
      SumSplit(m - {k}, first);
      assert m - {first} - {k} == m - {k} - {first};
    }
  }

  lemma {:induction false} SumMonotone<K>(m: map<K, nat>, m': map<K, nat>)
    requires m.Keys == m'.Keys
    requires forall k :: k in m ==> m'[k] <= m[k]
    ensures Sum(m') <= Sum(m)
    decreases |m|
  {
    if m == map[] {
      assert m' == map[];
    } else {
      var k :| k in m;
      Smaller(m, k);
      SumSplit(m, k);
      SumSplit(m', k);
      SumMonotone(m - {k}, m' - {k});
    }
  }

  lemma SumDecreases<K>(m: map<K, nat>, m': map<K, nat>, k: K)
    requires m.Keys == m'.Keys && k in m && m'[k] < m[k]
    requires forall j :: j in m ==> m'[j] <= m[j]
    ensures Sum(m') < Sum(m)
  {
    SumSplit(m, k);
    SumSplit(m', k);
    SumMonotone(m - {k}, m' - {k});
  }
}
