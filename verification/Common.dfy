/** Small types and predicates the other modules share. */
module Common {
  datatype Option<+T> = None | Some(value: T)

  /** No element stands at two places. */
  ghost predicate NoDuplicates<T(!new)>(s: seq<T>) {
    forall i, j :: 0 <= i < j < |s| ==> s[i] != s[j]
  }

  lemma TimesGrows(size: nat, s: nat, t: nat)
    ensures s < t ==> (s + 1) * size <= t * size
    ensures s <= t ==> s * size <= t * size && (s + 1) * size <= (t + 1) * size
  {
    if s < t { assert (t - s - 1) * size >= 0; }
    if s <= t { assert (t - s) * size >= 0; }
  }

  /** The quotient is the largest number of whole parts that fit. */
  lemma QuotientIs(size: nat, n: nat, q: nat, k: nat)
    requires q * size <= n < (q + 1) * size
    ensures k * size <= n <==> k <= q
  {
    if k <= q { TimesGrows(size, k, q); } else { TimesGrows(size, q, k); }
  }

  /** Each of the `n` steps relates what is before it to what is after it. */
  ghost predicate Chained<S>(rel: (nat, S, S) -> bool, stages: seq<S>, n: nat) {
    |stages| == n + 1 && forall i :: 0 <= i < n ==> rel(i, stages[i], stages[i + 1])
  }

  lemma ChainedSnoc<S>(rel: (nat, S, S) -> bool, stages: seq<S>, n: nat, next: S)
    requires Chained(rel, stages, n) && rel(n, stages[n], next)
    ensures Chained(rel, stages + [next], n + 1)
  {
  }
}
