/** Repeating a partial step. */
module Iteration {
  import opened Wrappers

  /** Up to k steps of f, for as long as there is one. */
  function Iterate<S>(f: S -> Option<S>, s: S, k: nat): S {
    if k == 0 || f(s).None? then s else Iterate(f, f(s).value, k - 1)
  }

  lemma IterateOnce<S>(f: S -> Option<S>, s: S, t: S, k: nat)
    requires f(s) == Some(t) && k > 0
    ensures Iterate(f, s, k) == Iterate(f, t, k - 1)
  {
  }

  lemma IterateEnds<S>(f: S -> Option<S>, s: S, k: nat)
    requires f(s).None?
    ensures Iterate(f, s, k) == s
  {
  }

  lemma TwoThenEnd<S>(f: S -> Option<S>, s: S, t: S, u: S, k: nat)
    requires f(s) == Some(t) && f(t) == Some(u) && f(u).None? && k >= 2
    ensures Iterate(f, s, k) == u
  {
    IterateOnce(f, s, t, k);
    IterateOnce(f, t, u, k - 1);
    IterateEnds(f, u, k - 2);
  }
}
