/** Runs of a machine that takes one step for each event. */
module Runs {
  function Fold<S, E>(step: (S, E) -> S, s: S, events: seq<E>): S
    decreases |events|
  {
    if events == [] then s else Fold(step, step(s, events[0]), events[1..])
  }

  /** A run of some events and then more is a run of the more from where the first ended. */
  lemma {:induction false} FoldConcat<S, E>(step: (S, E) -> S, s: S, first: seq<E>, more: seq<E>)
    ensures Fold(step, s, first + more) == Fold(step, Fold(step, s, first), more)
    decreases |first|
  {
    if first == [] {
      assert first + more == more;
    } else {
      assert (first + more)[1..] == first[1..] + more;
      FoldConcat(step, step(s, first[0]), first[1..], more);
    }
  }

  lemma FoldSnoc<S, E>(step: (S, E) -> S, s: S, events: seq<E>, e: E)
    ensures Fold(step, s, events + [e]) == step(Fold(step, s, events), e)
  {
    FoldConcat(step, s, events, [e]);
    assert [e][1..] == [];
  }
}
