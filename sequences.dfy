/** Python's `zip` and `enumerate` over sequences. */
module Sequences {
  /** `zip(xs, ys)` for sequences of equal length. */
  function Zip<A, B>(xs: seq<A>, ys: seq<B>): seq<(A, B)>
    requires |xs| == |ys|
  {
    seq(|xs|, i requires 0 <= i < |xs| => (xs[i], ys[i]))
  }

  /** `[f(i, x) for i, x in enumerate(xs[:n])]`, built the way a loop
      appending one result per element builds it. */
  function Enumerated<A, B>(f: (nat, A) -> B, xs: seq<A>, n: nat): seq<B>
    requires n <= |xs|
  {
    if n == 0 then [] else Enumerated(f, xs, n - 1) + [f(n - 1, xs[n - 1])]
  }

  /** The first `n` elements give `n` results, result `i` from element `i`. */
  lemma {:induction false} EnumeratedAt<A, B>(f: (nat, A) -> B, xs: seq<A>, n: nat)
    requires n <= |xs|
    ensures |Enumerated(f, xs, n)| == n
    ensures forall i | 0 <= i < n :: Enumerated(f, xs, n)[i] == f(i, xs[i])
  {
    if n > 0 {
      EnumeratedAt(f, xs, n - 1);
    }
  }
}
