/** Runs of a state machine, for any machine. */
module Runs {
  import opened Wrappers

  /** `es` can happen, one after another, from `w`, and leads to `last`. */
  ghost predicate Leads<W, E>(step: (W, E) -> Option<W>, w: W, es: seq<E>, last: W)
    decreases |es|
  {
    if es == [] then w == last
    else step(w, es[0]).Some? && Leads(step, step(w, es[0]).value, es[1..], last)
  }

  lemma {:induction false} LeadsConcat<W, E>(step: (W, E) -> Option<W>, w: W, es: seq<E>, mid: W, fs: seq<E>, last: W)
    requires Leads(step, w, es, mid) && Leads(step, mid, fs, last)
    ensures Leads(step, w, es + fs, last)
    decreases |es|
  {
    if es == [] {
      assert es + fs == fs;
    } else {
      LeadsConcat(step, step(w, es[0]).value, es[1..], mid, fs, last);
      assert (es + fs)[1..] == es[1..] + fs;
    }
  }

  /** States, and the steps between them, of a machine given by what a step may do. */
  ghost predicate Trail<S(!new), A(!new)>(step: (S, A, S) -> bool, states: seq<S>, actions: seq<A>) {
    && |states| == |actions| + 1
    && forall i :: 0 < i < |states| ==> step(states[i - 1], actions[i - 1], states[i])
  }

  /** What every allowed step keeps, a trail of them keeps. */
  lemma {:induction false} TrailKeeps<S(!new), A(!new)>(step: (S, A, S) -> bool, allowed: A -> bool, keeps: S -> bool,
                                                        states: seq<S>, actions: seq<A>, n: nat)
    requires Trail(step, states, actions) && n < |states| && keeps(states[0])
    requires forall a :: a in actions ==> allowed(a)
    requires forall s, a, t :: allowed(a) && keeps(s) && step(s, a, t) ==> keeps(t)
    ensures keeps(states[n])
  {
    if n > 0 {
      TrailKeeps(step, allowed, keeps, states, actions, n - 1);
      assert step(states[n - 1], actions[n - 1], states[n]) && actions[n - 1] in actions;
    }
  }
}
