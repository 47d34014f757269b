/** Sums over finite maps, used by the storage accounting. */
module Totals {

  ghost function Pick<K>(m: map<K, int>): (k: K)
    requires m != map[]
    ensures k in m
  {
    assert m.Keys != {};
    var k :| k in m;
    k
  }

  /** The sum of the values of `m`. */
  ghost function Total<K>(m: map<K, int>): int
    decreases |m|
  {
    if m == map[] then 0 else var k := Pick(m); m[k] + Total(m - {k})
  }

  /** The order in which `Total` picks the keys does not matter. */
  lemma {:induction false} TotalWithout<K>(m: map<K, int>, k: K)
    requires k in m
    ensures Total(m) == m[k] + Total(m - {k})
    decreases |m|
  {
    var k0 := Pick(m);
    if k0 != k {
      TotalWithout(m - {k0}, k);
      TotalWithout(m - {k}, k0);
      assert m - {k0} - {k} == m - {k} - {k0};
    }
  }

  lemma TotalInsert<K>(m: map<K, int>, k: K, v: int)
    requires k !in m
    ensures Total(m[k := v]) == Total(m) + v
  {
    TotalWithout(m[k := v], k);
    assert m[k := v] - {k} == m;
  }

  lemma TotalUpdate<K>(m: map<K, int>, k: K, v: int)
    requires k in m
    ensures Total(m[k := v]) == Total(m) - m[k] + v
  {
    TotalWithout(m, k);
    TotalWithout(m[k := v], k);
    assert m[k := v] - {k} == m - {k};
  }

  lemma {:induction false} TotalNonNegative<K>(m: map<K, int>)
    requires forall k :: k in m ==> 0 <= m[k]
    ensures 0 <= Total(m)
    decreases |m|
  {
    if m != map[] {
      TotalNonNegative(m - {Pick(m)});
    }
  }

  /** With no negative value, no single value exceeds the sum. */
  lemma TotalAtLeast<K>(m: map<K, int>, k: K)
    requires k in m && forall j :: j in m ==> 0 <= m[j]
    ensures m[k] <= Total(m)
  {
    TotalWithout(m, k);
    TotalNonNegative(m - {k});
  }

  lemma PositiveTotal<K>(m: map<K, int>)
    requires Total(m) == 0 && forall k :: k in m ==> 0 < m[k]
    ensures m == map[]
  {
    if m != map[] {
      TotalAtLeast(m, Pick(m));
    }
  }
}
