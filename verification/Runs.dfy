/** Runs of a state machine given by a step relation. */
module Runs {

  /** Consecutive states, each linked to the next by its action. */
  ghost predicate IsRun<S, A>(step: (S, A, S) -> bool, states: seq<S>, actions: seq<A>) {
    && |states| == |actions| + 1
    && forall i {:trigger actions[i]} :: 0 <= i < |actions| ==> step(states[i], actions[i], states[i + 1])
  }

  /** What every step keeps holds from wherever it holds once. */
  lemma {:induction false} Invariant<S(!new), A(!new)>(
    step: (S, A, S) -> bool, inv: S -> bool, states: seq<S>, actions: seq<A>, from: nat, to: nat)
    requires IsRun(step, states, actions) && from <= to < |states| && inv(states[from])
    requires forall s, a, s' :: inv(s) && step(s, a, s') ==> inv(s')
    ensures inv(states[to])
  {
    if from < to {
      Invariant(step, inv, states, actions, from, to - 1);
      assert step(states[to - 1], actions[to - 1], states[to]);
    }
  }

  /** The same for what every step of a certain kind keeps, over a stretch of such steps. */
  lemma {:induction false} InvariantWhile<S(!new), A(!new)>(
    step: (S, A, S) -> bool, inv: S -> bool, quiet: (S, A) -> bool, states: seq<S>, actions: seq<A>, from: nat, to: nat)
    requires IsRun(step, states, actions) && from <= to < |states| && inv(states[from])
    requires forall i {:trigger actions[i]} :: from <= i < to ==> quiet(states[i], actions[i])
    requires forall s, a, s' :: inv(s) && step(s, a, s') && quiet(s, a) ==> inv(s')
    ensures inv(states[to])
  {
    if from < to {
      InvariantWhile(step, inv, quiet, states, actions, from, to - 1);
      assert step(states[to - 1], actions[to - 1], states[to]) && quiet(states[to - 1], actions[to - 1]);
    }
  }

  /** Prolongs a run by one step. */
  lemma Extend<S, A>(step: (S, A, S) -> bool, states: seq<S>, actions: seq<A>, a: A, s': S)
    returns (states': seq<S>, actions': seq<A>)
    requires IsRun(step, states, actions) && step(states[|actions|], a, s')
    ensures IsRun(step, states', actions') && states' == states + [s'] && actions' == actions + [a]
  {
    states', actions' := states + [s'], actions + [a];
  }
}
