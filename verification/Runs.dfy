// A run applies one step function to a list of events.
module Runs {
  function Fold<S, E>(step: (S, E) -> S, s: S, events: seq<E>): S
  {
    if events == [] then s
    else step(Fold(step, s, events[..|events| - 1]), events[|events| - 1])
  }

  lemma {:induction false} FoldConcat<S, E>(step: (S, E) -> S, s: S, a: seq<E>, b: seq<E>)
    ensures Fold(step, s, a + b) == Fold(step, Fold(step, s, a), b)
  {
    if b == [] {
      assert a + b == a;
    } else {
      var init := b[..|b| - 1];
      FoldConcat(step, s, a, init);
      assert (a + b)[..|a + b| - 1] == a + init;
    }
  }

  lemma FoldAppend<S, E>(step: (S, E) -> S, s: S, a: seq<E>, e: E)
    ensures Fold(step, s, a + [e]) == step(Fold(step, s, a), e)
  {
    assert (a + [e])[..|a|] == a;
  }

  lemma FoldFour<S, E>(step: (S, E) -> S, s: S, a: E, b: E, c: E, d: E)
    ensures Fold(step, s, [a, b, c, d]) == step(step(step(step(s, a), b), c), d)
  {
    FoldAppend(step, s, [], a);
    FoldAppend(step, s, [a], b);
    FoldAppend(step, s, [a, b], c);
    FoldAppend(step, s, [a, b, c], d);
    assert [] + [a] == [a] && [a] + [b] == [a, b] && [a, b] + [c] == [a, b, c] && [a, b, c] + [d] == [a, b, c, d];
  }
}
