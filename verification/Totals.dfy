/** Sums over finite maps with real values. */
module Totals {
  ghost function Total(m: map<nat, real>): real
    decreases |m|
  {
    if m == map[] then 0.0 else
      var k :| k in m;
      m[k] + Total(m - {k})
  }

  lemma {:induction false} TotalRemove(m: map<nat, real>, k: nat)
    requires k in m
    ensures Total(m) == m[k] + Total(m - {k})
    decreases |m|
  {
    var x :| x in m && Total(m) == m[x] + Total(m - {x});
    if x != k {
      TotalRemove(m - {x}, k);
      TotalRemove(m - {k}, x);
      assert m - {x} - {k} == m - {k} - {x};
    }
  }

  lemma TotalAdd(m: map<nat, real>, k: nat, v: real)
    requires k !in m
    ensures Total(m[k := v]) == Total(m) + v
  {
    TotalRemove(m[k := v], k);
    assert m[k := v] - {k} == m;
  }

  lemma {:induction false} TotalIsNonNegative(m: map<nat, real>)
    requires forall k :: k in m ==> 0.0 <= m[k]
    ensures 0.0 <= Total(m)
    ensures forall k :: k in m ==> m[k] <= Total(m)
    decreases |m|
  {
    if k :| k in m {
      TotalIsNonNegative(m - {k});
      TotalRemove(m, k);
      forall j | j in m ensures m[j] <= Total(m) {
        if j != k { assert (m - {k})[j] == m[j]; }
      }
    }
  }

  /** Dropping entries lowers the sum by what was dropped. */
  lemma {:induction false} TotalOfPart(part: map<nat, real>, m: map<nat, real>)
    requires forall k :: k in part ==> k in m && part[k] == m[k]
    requires forall k :: k in m ==> 0.0 < m[k]
    ensures Total(part) <= Total(m)
    ensures Total(part) == Total(m) <==> part == m
    decreases |m|
  {
    if part != m {
      var k :| k in m && k !in part;
      TotalRemove(m, k);
      TotalOfPart(part, m - {k});
    }
  }
}
