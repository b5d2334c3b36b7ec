/** Runs of a state machine: sequences of actions, each possible where it is taken. */
module Runs {
  import opened Wrappers

  /** The state after `run`, if each of its actions was possible; `step` gives none where an action is not. */
  function After<S, A>(init: S, step: (S, A) -> Option<S>, run: seq<A>): Option<S> {
    if run == [] then Some(init)
    else
      var before := After(init, step, run[..|run| - 1]);
      if before.Some? then step(before.value, run[|run| - 1]) else None
  }

  /** What holds initially and is kept by every step holds after every run. */
  lemma {:induction false} Invariant<S, A>(init: S, step: (S, A) -> Option<S>, inv: S -> bool, run: seq<A>)
    requires After(init, step, run).Some?
    requires inv(init)
    requires forall s, a :: inv(s) && step(s, a).Some? ==> inv(step(s, a).value)
    ensures inv(After(init, step, run).value)
  {
    if run != [] { Invariant(init, step, inv, run[..|run| - 1]); }
  }

  lemma Extend<S, A>(init: S, step: (S, A) -> Option<S>, run: seq<A>, s: S, a: A) returns (run': seq<A>)
    requires After(init, step, run) == Some(s)
    ensures run' == run + [a] && After(init, step, run') == step(s, a)
  {
    run' := run + [a];
    assert run'[..|run'| - 1] == run;
  }

  /** A run may be taken apart after its first action. */
  lemma {:induction false} FirstStep<S, A>(init: S, step: (S, A) -> Option<S>, a: A, run: seq<A>)
    requires step(init, a).Some?
    ensures After(init, step, [a] + run) == After(step(init, a).value, step, run)
  {
    var whole := [a] + run;
    if run == [] {
      assert whole[..|whole| - 1] == [];
    } else {
      FirstStep(init, step, a, run[..|run| - 1]);
      assert whole[..|whole| - 1] == [a] + run[..|run| - 1];
    }
  }

  lemma {:induction false} Concat<S, A>(init: S, step: (S, A) -> Option<S>, run: seq<A>, s: S, more: seq<A>)
    returns (whole: seq<A>)
    requires After(init, step, run) == Some(s)
    ensures whole == run + more && After(init, step, whole) == After(s, step, more)
  {
    whole := run + more;
    if more == [] {
      assert whole == run;
    } else {
      var front := Concat(init, step, run, s, more[..|more| - 1]);
      assert whole[..|whole| - 1] == front;
    }
  }

  lemma Two<S, A>(s: S, step: (S, A) -> Option<S>, a: A, s1: S, b: A, s2: S)
    requires step(s, a) == Some(s1) && step(s1, b) == Some(s2)
    ensures After(s, step, [a, b]) == Some(s2)
  {
    var run := Extend(s, step, [], s, a);
    run := Extend(s, step, run, s1, b);
    assert run == [a, b];
  }

  lemma Four<S, A>(s: S, step: (S, A) -> Option<S>, a: A, s1: S, b: A, s2: S, c: A, s3: S, d: A, s4: S)
    requires step(s, a) == Some(s1) && step(s1, b) == Some(s2) && step(s2, c) == Some(s3) && step(s3, d) == Some(s4)
    ensures After(s, step, [a, b, c, d]) == Some(s4)
  {
    Two(s, step, a, s1, b, s2);
    Two(s2, step, c, s3, d, s4);
    var run := Concat(s, step, [a, b], s2, [c, d]);
    assert run == [a, b, c, d];
  }
}
