/**
 Runs of a state machine given by its next-state relation: every module that speaks of "every run" or
 of "every reachable state" uses these definitions.
 */
module Runs {

  ghost predicate StepAt<S, A>(next: (S, A, S) -> bool, states: seq<S>, steps: seq<A>, i: nat)
    requires |states| == |steps| + 1 && i < |steps|
  {
    next(states[i], steps[i], states[i + 1])
  }

  /** A run: each step leads from its state to the next one. */
  ghost predicate IsRun<S, A>(next: (S, A, S) -> bool, states: seq<S>, steps: seq<A>) {
    |states| == |steps| + 1 && forall i :: 0 <= i < |steps| ==> StepAt(next, states, steps, i)
  }

  ghost predicate Reaches<S(!new), A(!new)>(next: (S, A, S) -> bool, s: S, t: S) {
    exists states, steps :: IsRun(next, states, steps) && states[0] == s && states[|steps|] == t
  }

  /** What holds at first and is kept by every step holds in every reachable state. */
  lemma InvariantHolds<S(!new), A(!new)>(next: (S, A, S) -> bool, inv: S -> bool, s: S, t: S)
    requires inv(s) && forall u, a, v :: inv(u) && next(u, a, v) ==> inv(v)
    requires Reaches(next, s, t)
    ensures inv(t)
  {
    var states, steps :| IsRun(next, states, steps) && states[0] == s && states[|steps|] == t;
    HoldsAlong(next, inv, states, steps, |steps|);
  }

  lemma {:induction false} HoldsAlong<S, A>(next: (S, A, S) -> bool, inv: S -> bool, states: seq<S>, steps: seq<A>, n: nat)
    requires IsRun(next, states, steps) && n <= |steps|
    requires inv(states[0]) && forall u, a, v :: inv(u) && next(u, a, v) ==> inv(v)
    ensures inv(states[n])
  {
    if n > 0 {
      HoldsAlong(next, inv, states, steps, n - 1);
      assert StepAt(next, states, steps, n - 1);
    }
  }

  lemma ReachSelf<S(!new), A(!new)>(next: (S, A, S) -> bool, s: S)
    ensures Reaches(next, s, s)
  {
    assert IsRun(next, [s], []);
  }

  /** Runs that meet end to end are one run. */
  lemma ReachFrom<S(!new), A(!new)>(next: (S, A, S) -> bool, s: S, t: S, u: S)
    requires Reaches(next, s, t) && Reaches(next, t, u)
    ensures Reaches(next, s, u)
  {
    var p, a :| IsRun(next, p, a) && p[0] == s && p[|a|] == t;
    var q, b :| IsRun(next, q, b) && q[0] == t && q[|b|] == u;
    var states, steps := p + q[1..], a + b;
    forall i | 0 <= i < |steps| ensures StepAt(next, states, steps, i) {
      if i < |a| {
        assert StepAt(next, p, a, i);
      } else {
        assert StepAt(next, q, b, i - |a|);
      }
    }
    assert IsRun(next, states, steps);
  }

  lemma ReachNext<S(!new), A(!new)>(next: (S, A, S) -> bool, s: S, t: S, a: A, u: S)
    requires Reaches(next, s, t) && next(t, a, u)
    ensures Reaches(next, s, u)
  {
    var states, steps := [t, u], [a];
    assert StepAt(next, states, steps, 0);
    assert IsRun(next, states, steps);
    ReachFrom(next, s, t, u);
  }
}
