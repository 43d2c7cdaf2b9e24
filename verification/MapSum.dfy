/** Sums over finite maps, independent of the order in which keys are visited. */
module MapSum {

  ghost function Pick(m: map<nat, nat>): (k: nat)
    requires m != map[]
    ensures k in m
  {
    assert m.Keys != {};
    var k :| k in m;
    k
  }

  ghost function Sum(m: map<nat, nat>): nat
    decreases m.Keys
  {
    if m == map[] then 0
    else
      var k := Pick(m);
      m[k] + Sum(m - {k})
  }

  lemma {:induction false} SumRemove(m: map<nat, nat>, k: nat)
    requires k in m
    ensures Sum(m) == m[k] + Sum(m - {k})
    decreases m.Keys
  {
    var p := Pick(m);
    if p != k {
      SumRemove(m - {p}, k);
      SumRemove(m - {k}, p);
      assert m - {p} - {k} == m - {k} - {p};
    }
  }

  lemma SumUpdate(m: map<nat, nat>, k: nat, v: nat)
    ensures Sum(m[k := v]) == v + Sum(m - {k})
    ensures Sum(m) == (if k in m then m[k] else 0) + Sum(m - {k})
  {
    SumRemove(m[k := v], k);
    assert m[k := v] - {k} == m - {k};
    if k in m {
      SumRemove(m, k);
    } else {
      assert m - {k} == m;
    }
  }

  /** Keys that carry nothing do not count. */
  lemma {:induction false} SumIgnoresZeros(m: map<nat, nat>, n: map<nat, nat>)
    requires m.Keys <= n.Keys
    requires forall k :: k in m ==> m[k] == n[k]
    requires forall k :: k in n && k !in m ==> n[k] == 0
    ensures Sum(m) == Sum(n)
    decreases n.Keys
  {
    if n != map[] {
      var p := Pick(n);
      if p in m {
        SumRemove(m, p);
        SumIgnoresZeros(m - {p}, n - {p});
      } else {
        SumIgnoresZeros(m, n - {p});
      }
    }
  }
}
