/** Finite runs of a transition system, shared by the protocol models. */
module Runs {

  /** `r` lists the states and `acts` the actions taken between them. */
  ghost predicate IsRun<S, A>(next: (S, A, S) -> bool, r: seq<S>, acts: seq<A>) {
    && |r| == |acts| + 1
    && forall i :: 0 <= i < |acts| ==> next(r[i], acts[i], r[i + 1])
  }

  /** A property false at `i` and true at `j` becomes true at some step between. */
  lemma {:induction false} Crossing<S>(p: S -> bool, r: seq<S>, i: nat, j: nat) returns (k: nat)
    requires i <= j < |r| && !p(r[i]) && p(r[j])
    ensures i <= k < j && !p(r[k]) && p(r[k + 1])
    decreases j
  {
    if p(r[j - 1]) {
      k := Crossing(p, r, i, j - 1);
    } else {
      k := j - 1;
    }
  }

  lemma Join<S, A>(next: (S, A, S) -> bool, r: seq<S>, acts: seq<A>, q: seq<S>, more: seq<A>)
    requires IsRun(next, r, acts) && IsRun(next, q, more) && r[|acts|] == q[0]
    ensures IsRun(next, r + q[1..], acts + more)
    ensures (r + q[1..])[0] == r[0] && forall i | 0 <= i <= |more| :: (r + q[1..])[|acts| + i] == q[i]
  {
  }
}
