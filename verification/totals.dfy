/** Sums over maps, for counting the steps that many threads have still to take. */
module Totals {

  function Total(m: map<nat, nat>): nat
  {
    if m == map[] then 0 else
    var k: nat := Least(m.Keys);
    m[k] + Total(m - {k})
  }

  function Least(ks: set<nat>): (k: nat)
    requires ks != {}
    ensures k in ks && forall u <- ks :: k <= u
  {
    SomeLeast(ks);
    var k :| k in ks && forall u <- ks :: k <= u;
    k
  }

  lemma SomeLeast(ks: set<nat>)
    requires ks != {}
    ensures exists k :: k in ks && forall u <- ks :: k <= u
  {
    var m := LeastExists(ks);
  }

  lemma {:induction false} LeastExists(ks: set<nat>) returns (m: nat)
    requires ks != {}
    ensures m in ks && forall u <- ks :: m <= u
    decreases ks
  {
    m :| m in ks;
    if ks != {m} {
      var rest := LeastExists(ks - {m});
      forall u | u in ks ensures (if m <= rest then m else rest) <= u {
        assert u == m || u in ks - {m};
      }
      m := if m <= rest then m else rest;
    }
  }

  lemma {:induction false} TotalOf(m: map<nat, nat>, k: nat)
    requires k in m
    ensures Total(m) == m[k] + Total(m - {k})
    decreases |m|
  {
    var u := Least(m.Keys);
    if u != k {
      TotalOf(m - {u}, k);
      TotalOf(m - {k}, u);
      assert m - {u} - {k} == m - {k} - {u};
    }
  }

  /** Changing or adding one number. */
  lemma TotalUpdate(m: map<nat, nat>, k: nat, n: nat)
    ensures Total(m[k := n]) + (if k in m then m[k] else 0) == Total(m) + n
  {
    TotalOf(m[k := n], k);
    if k in m {
      assert m[k := n] - {k} == m - {k};
      TotalOf(m, k);
    } else {
      assert m[k := n] - {k} == m;
    }
  }
}
