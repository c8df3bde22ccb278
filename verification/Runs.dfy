/** Runs of a step system: `step(s, a)` is the state after action `a`. */
module Runs {

  /** The state after all the actions, in order. */
  function Run<S, A>(step: (S, A) -> S, s: S, actions: seq<A>): S {
    if actions == [] then s
    else step(Run(step, s, actions[..|actions| - 1]), actions[|actions| - 1])
  }

  lemma {:induction false} RunConcat<S, A>(step: (S, A) -> S, s: S, first: seq<A>, more: seq<A>)
    ensures Run(step, s, first + more) == Run(step, Run(step, s, first), more)
  {
    if more == [] {
      assert first + more == first;
    } else {
      var n := |more| - 1;
      assert (first + more)[..|first| + n] == first + more[..n];
      RunConcat(step, s, first, more[..n]);
    }
  }

  ghost predicate Reaches<S(!new), A(!new)>(step: (S, A) -> S, s: S, t: S) {
    exists actions: seq<A> :: t == Run(step, s, actions)
  }

  lemma ReachesSelf<S(!new), A(!new)>(step: (S, A) -> S, s: S)
    ensures Reaches(step, s, s)
  {
    assert s == Run(step, s, []);
  }

  lemma ReachesRun<S(!new), A(!new)>(step: (S, A) -> S, s: S, t: S, actions: seq<A>)
    requires Reaches(step, s, t)
    ensures Reaches(step, s, Run(step, t, actions))
  {
    var first: seq<A> :| t == Run(step, s, first);
    RunConcat(step, s, first, actions);
  }

  lemma ReachesNext<S(!new), A(!new)>(step: (S, A) -> S, s: S, t: S, a: A)
    requires Reaches(step, s, t)
    ensures Reaches(step, s, step(t, a))
  {
    assert Run(step, t, [a][..0]) == t;
    assert Run(step, t, [a]) == step(t, a);
    ReachesRun(step, s, t, [a]);
  }

  lemma ReachesTrans<S(!new), A(!new)>(step: (S, A) -> S, s: S, t: S, u: S)
    requires Reaches(step, s, t) && Reaches(step, t, u)
    ensures Reaches(step, s, u)
  {
    var more: seq<A> :| u == Run(step, t, more);
    ReachesRun(step, s, t, more);
  }

  lemma RunFour<S, A>(step: (S, A) -> S, s: S, a: A, b: A, c: A, d: A)
    ensures Run(step, s, [a, b, c, d]) == step(step(step(step(s, a), b), c), d)
  {
    assert [a, b, c, d][..3] == [a, b, c] && [a, b, c][..2] == [a, b] && [a, b][..1] == [a] && [a][..0] == [];
    assert Run(step, s, [a]) == step(s, a);
    assert Run(step, s, [a, b]) == step(Run(step, s, [a]), b);
    assert Run(step, s, [a, b, c]) == step(Run(step, s, [a, b]), c);
  }
}
