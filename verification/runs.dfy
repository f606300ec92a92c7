/** Runs of a machine: a step function applied to a sequence of labels. */
module Runs {
  function Run<S, L>(next: (S, L) -> S, s: S, labels: seq<L>): S
    decreases |labels|
  {
    if labels == [] then s else Run(next, next(s, labels[0]), labels[1..])
  }

  lemma {:induction false} RunConcat<S, L>(next: (S, L) -> S, s: S, a: seq<L>, b: seq<L>)
    ensures Run(next, s, a + b) == Run(next, Run(next, s, a), b)
    decreases |a|
  {
    if a == [] {
      assert a + b == b;
    } else {
      RunConcat(next, next(s, a[0]), a[1..], b);
      assert (a + b)[1..] == a[1..] + b;
    }
  }

  lemma RunTwo<S, L>(next: (S, L) -> S, s: S, a: L, b: L)
    ensures Run(next, s, [a, b]) == next(next(s, a), b)
  {
    var t := next(s, a);
    assert [a, b][1..] == [b] && [b][1..] == [];
    assert Run(next, t, [b]) == Run(next, next(t, b), []);
  }

  lemma RunThree<S, L>(next: (S, L) -> S, s: S, a: L, b: L, c: L)
    ensures Run(next, s, [a, b, c]) == next(next(next(s, a), b), c)
  {
    assert [a, b, c][1..] == [b, c];
    RunTwo(next, next(s, a), b, c);
  }
}
