/** The sum of the values of a finite map. */
module Sums {

  ghost function Sum<K(!new)>(m: map<K, nat>): nat {
    if m == map[] then 0 else var k :| k in m; m[k] + Sum(m - {k})
  }

  /** Any entry can be taken out first. */
  lemma {:induction false} SumWithout<K(!new)>(m: map<K, nat>, k: K)
    requires k in m
    ensures Sum(m) == m[k] + Sum(m - {k})
    decreases |m|
  {
    var first :| first in m && Sum(m) == m[first] + Sum(m - {first});
    if first != k {
      var rest := m - {first};
      assert |rest| < |m| by { assert rest.Keys == m.Keys - {first}; }
      SumWithout(rest, k);
      var other := m - {k};
      assert |other| < |m| by { assert other.Keys == m.Keys - {k}; }
      SumWithout(other, first);
      assert rest - {k} == other - {first};
    }
  }

  lemma SumWith<K(!new)>(m: map<K, nat>, k: K, v: nat)
    requires k !in m
    ensures Sum(m[k := v]) == Sum(m) + v
  {
    SumWithout(m[k := v], k);
    assert m[k := v] - {k} == m;
  }

  lemma {:induction false} SumIsMonotone<K(!new)>(a: map<K, nat>, b: map<K, nat>)
    requires a.Keys == b.Keys && forall k :: k in a ==> a[k] <= b[k]
    ensures Sum(a) <= Sum(b)
    decreases |a|
  {
    if k :| k in a {
      SumWithout(a, k);
      SumWithout(b, k);
      assert |a - {k}| < |a| by { assert (a - {k}).Keys == a.Keys - {k}; }
      SumIsMonotone(a - {k}, b - {k});
    } else {
      assert a == map[] && b == map[];
    }
  }

  lemma SumIsStrict<K(!new)>(a: map<K, nat>, b: map<K, nat>, k: K)
    requires a.Keys == b.Keys && (forall x :: x in a ==> a[x] <= b[x]) && k in a && a[k] < b[k]
    ensures Sum(a) < Sum(b)
  {
    SumWithout(a, k);
    SumWithout(b, k);
    SumIsMonotone(a - {k}, b - {k});
  }
}
