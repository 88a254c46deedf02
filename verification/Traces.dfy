/** Runs of a state machine: a step function folded over a trace of events. */
module Traces {

  function Run<S, E>(step: (S, E) -> S, s: S, trace: seq<E>): S
    decreases |trace|
  {
    if trace == [] then s else Run(step, step(s, trace[0]), trace[1..])
  }

  lemma {:induction false} RunConcat<S, E>(step: (S, E) -> S, s: S, front: seq<E>, back: seq<E>)
    ensures Run(step, s, front + back) == Run(step, Run(step, s, front), back)
    decreases |front|
  {
    if front == [] {
      assert front + back == back;
    } else {
      assert (front + back)[1..] == front[1..] + back;
      RunConcat(step, step(s, front[0]), front[1..], back);
    }
  }

  lemma RunSnoc<S, E>(step: (S, E) -> S, s: S, trace: seq<E>, e: E)
    ensures Run(step, s, trace + [e]) == step(Run(step, s, trace), e)
  {
    RunConcat(step, s, trace, [e]);
    assert Run(step, step(Run(step, s, trace), e), []) == step(Run(step, s, trace), e);
  }

  lemma RunTwo<S, E>(step: (S, E) -> S, s: S, a: E, b: E)
    ensures Run(step, s, [a, b]) == step(step(s, a), b)
  {
    assert [a, b][1..] == [b];
    assert Run(step, step(s, a), [b]) == step(step(s, a), b);
  }

  lemma RunThree<S, E>(step: (S, E) -> S, s: S, a: E, b: E, c: E)
    ensures Run(step, s, [a, b, c]) == step(step(step(s, a), b), c)
  {
    assert [a, b, c][1..] == [b, c];
    RunTwo(step, step(s, a), b, c);
  }

  lemma RunFour<S, E>(step: (S, E) -> S, s: S, a: E, b: E, c: E, d: E)
    ensures Run(step, s, [a, b, c, d]) == step(step(step(step(s, a), b), c), d)
  {
    assert [a, b, c, d][1..] == [b, c, d];
    RunThree(step, step(s, a), b, c, d);
  }

  /** The same step, for a loop that has processed trace[..i] and takes trace[i]. */
  lemma RunNext<S, E>(step: (S, E) -> S, s: S, trace: seq<E>, i: nat)
    requires i < |trace|
    ensures Run(step, s, trace[..i + 1]) == step(Run(step, s, trace[..i]), trace[i])
  {
    assert trace[..i + 1] == trace[..i] + [trace[i]];
    RunSnoc(step, s, trace[..i], trace[i]);
  }

  /** An invariant of every step is an invariant of every run. */
  lemma {:induction false} RunInvariant<S(!new), E(!new)>(step: (S, E) -> S, inv: S -> bool, s: S, trace: seq<E>)
    requires inv(s)
    requires forall t: S, e: E :: inv(t) ==> inv(step(t, e))
    ensures inv(Run(step, s, trace))
    decreases |trace|
  {
    if trace != [] {
      RunInvariant(step, inv, step(s, trace[0]), trace[1..]);
    }
  }

  /** The same for an invariant that relates the state to the whole trace so far. */
  lemma {:induction false} RunHistory<S(!new), E(!new)>(
      step: (S, E) -> S, inv: (seq<E>, S) -> bool, s: S, trace: seq<E>)
    requires inv([], s)
    requires forall past: seq<E>, t: S, e: E :: inv(past, t) ==> inv(past + [e], step(t, e))
    ensures inv(trace, Run(step, s, trace))
    decreases |trace|
  {
    if trace != [] {
      var n := |trace| - 1;
      assert trace == trace[..n] + [trace[n]];
      RunHistory(step, inv, s, trace[..n]);
      RunSnoc(step, s, trace[..n], trace[n]);
    }
  }
}
