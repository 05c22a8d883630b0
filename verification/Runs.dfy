/** A run of a protocol: one step after the other. */
module Runs {

  function Fold<S, A>(next: (S, A) -> S, s: S, steps: seq<A>): S
    decreases |steps|
  {
    if steps == [] then s else Fold(next, next(s, steps[0]), steps[1..])
  }

  lemma {:induction false} FoldJoin<S, A>(next: (S, A) -> S, s: S, first: seq<A>, rest: seq<A>)
    ensures Fold(next, s, first + rest) == Fold(next, Fold(next, s, first), rest)
    decreases |first|
  {
    if first == [] {
      assert first + rest == rest;
    } else {
      assert (first + rest)[1..] == first[1..] + rest;
      FoldJoin(next, next(s, first[0]), first[1..], rest);
    }
  }

  lemma FoldOne<S, A>(next: (S, A) -> S, s: S, step: A, rest: seq<A>)
    ensures Fold(next, s, [step] + rest) == Fold(next, next(s, step), rest)
  {
    assert ([step] + rest)[1..] == rest;
  }
}
