/** Amounts held by accounts, and their total. */
module Ledger {
  ghost function Sum(m: map<nat, int>): int
    decreases m.Keys
  {
    if m.Keys == {} then 0 else
      var a :| a in m.Keys;
      m[a] + Sum(m - {a})
  }

  lemma {:induction false} SumSplit(m: map<nat, int>, a: nat)
    requires a in m
    ensures Sum(m) == m[a] + Sum(m - {a})
    decreases m.Keys
  {
    var b :| b in m.Keys && Sum(m) == m[b] + Sum(m - {b});
    if b != a {
      SumSplit(m - {b}, a);
      assert m - {b} - {a} == m - {a} - {b};
      SumSplit(m - {a}, b);
    }
  }

  function Get(m: map<nat, int>, a: nat): int { if a in m then m[a] else 0 }

  lemma SumPut(m: map<nat, int>, a: nat, v: int)
    ensures Sum(m[a := v]) == Sum(m) - Get(m, a) + v
  {
    SumSplit(m[a := v], a);
    assert m[a := v] - {a} == m - {a};
    if a in m { SumSplit(m, a); } else { assert m - {a} == m; }
  }

  /** No account is overdrawn. */
  ghost predicate Solvent(m: map<nat, int>) {
    forall a :: a in m ==> m[a] >= 0
  }
}
