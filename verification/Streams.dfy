/** Filters that carry a state from sample to sample, and that it does not matter
    where the stream is cut into blocks. */
module Streams {

  datatype Outcome<S, Y> = Outcome(output: seq<Y>, state: S)

  function Run<S, X, Y>(step: (S, X) -> (S, seq<Y>), s: S, xs: seq<X>): Outcome<S, Y>
    decreases |xs|
  {
    if xs == [] then Outcome([], s)
    else
      var (s', y) := step(s, xs[0]);
      var rest := Run(step, s', xs[1..]);
      Outcome(y + rest.output, rest.state)
  }

  lemma {:induction false} RunAppend<S, X, Y>(step: (S, X) -> (S, seq<Y>), s: S, a: seq<X>, b: seq<X>)
    ensures var first := Run(step, s, a);
            var second := Run(step, first.state, b);
            Run(step, s, a + b) == Outcome(first.output + second.output, second.state)
    decreases |a|
  {
    if a == [] {
      assert a + b == b;
    } else {
      var (s', y) := step(s, a[0]);
      assert (a + b)[1..] == a[1..] + b;
      RunAppend(step, s', a[1..], b);
    }
  }

  function Flatten<X>(blocks: seq<seq<X>>): seq<X> {
    if blocks == [] then [] else blocks[0] + Flatten(blocks[1..])
  }

  /** The stream up to n, and one more sample. */
  lemma RunStep<S, X, Y>(step: (S, X) -> (S, seq<Y>), s: S, xs: seq<X>, n: nat)
    requires n < |xs|
    ensures var before := Run(step, s, xs[..n]);
            var (s', y) := step(before.state, xs[n]);
            Run(step, s, xs[..n + 1]) == Outcome(before.output + y, s')
  {
    assert xs[..n + 1] == xs[..n] + [xs[n]];
    RunAppend(step, s, xs[..n], [xs[n]]);
    var (s', y) := step(Run(step, s, xs[..n]).state, xs[n]);
    assert y + [] == y;
  }
}
