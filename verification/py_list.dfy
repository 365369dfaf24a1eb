/** The Python list built-ins the load grid and the analytics use. */
module PyList {
  /** `sum(xs)`. */
  function Sum(xs: seq<int>): int {
    if xs == [] then 0 else Sum(xs[..|xs| - 1]) + xs[|xs| - 1]
  }

  /** `[v] * n`, and `c * n` for a character `c`. */
  function Filled<T>(v: T, n: nat): (xs: seq<T>)
    ensures |xs| == n && forall i :: 0 <= i < n ==> xs[i] == v
  {
    seq(n, _ => v)
  }

  /** One more copy at the end is the list one longer. */
  lemma FilledSnoc<T>(v: T, n: nat)
    ensures Filled(v, n) + [v] == Filled(v, n + 1)
  {
    assert forall i :: 0 <= i <= n ==> (Filled(v, n) + [v])[i] == v;
  }
}
