/** Adding up the values of a map. */
module Totals {
  import opened Basics

  ghost function Sum<K>(m: map<K, nat>): nat
    decreases |m|
  {
    if m == map[] then 0 else
      var k: K :| k in m;
      assert (m - {k}).Keys == m.Keys - {k};
      m[k] + Sum(m - {k})
  }

  lemma {:induction false} SumRemove<K>(m: map<K, nat>, k: K)
    requires k in m
    ensures Sum(m) == m[k] + Sum(m - {k})
    decreases |m|
  {
    var j: K :| j in m && Sum(m) == m[j] + Sum(m - {j});
    if j != k {
      var mk, mj := m - {k}, m - {j};
      assert mk.Keys == m.Keys - {k} && mj.Keys == m.Keys - {j};
      SumRemove(mj, k);
      SumRemove(mk, j);
      assert mj - {k} == mk - {j};
    }
  }

  /** Adding a key, or giving it another value. */
  lemma SumPut<K>(m: map<K, nat>, k: K, n: nat)
    ensures Sum(m[k := n]) == Sum(m - {k}) + n
    ensures k !in m ==> Sum(m[k := n]) == Sum(m) + n
    ensures k in m ==> Sum(m[k := n]) + m[k] == Sum(m) + n
  {
    var after := m[k := n];
    SumRemove(after, k);
    assert after - {k} == m - {k};
    if k in m {
      SumRemove(m, k);
    } else {
      assert m - {k} == m;
    }
  }

  /** A map with fewer keys adds up to no more. */
  lemma {:induction false} SumOfFewer<K>(less: map<K, nat>, more: map<K, nat>)
    requires forall k :: k in less ==> k in more && less[k] == more[k]
    ensures Sum(less) <= Sum(more)
    decreases |less|
  {
    if less != map[] {
      var k: K :| k in less;
      assert (less - {k}).Keys == less.Keys - {k};
      SumRemove(less, k);
      SumRemove(more, k);
      SumOfFewer(less - {k}, more - {k});
    }
  }

  /** The sum as a loop computes it. */
  method AddUp<K>(m: map<K, nat>) returns (bytes: nat)
    ensures bytes == Sum(m)
  {
    bytes := 0;
    var rest := m;
    while rest != map[]
      invariant bytes + Sum(rest) == Sum(m)
      decreases |rest|
    {
      assert rest.Keys != {};
      var k := Pick(rest.Keys);
      SumRemove(rest, k);
      bytes := bytes + rest[k];
      assert (rest - {k}).Keys == rest.Keys - {k};
      rest := rest - {k};
    }
  }
}
