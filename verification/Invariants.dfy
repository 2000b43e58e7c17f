/** Induction over the states of a run, shared by the state machines of the project. */
module Invariants {
  /** An invariant that holds at the start and that every step keeps holds at every state. */
  lemma {:induction false} HoldsThroughout<S>(states: seq<S>, inv: (nat, S) -> bool, i: nat)
    requires i < |states| && inv(0, states[0])
    requires forall k: nat :: k + 1 < |states| && inv(k, states[k]) ==> inv(k + 1, states[k + 1])
    ensures inv(i, states[i])
  {
    if i > 0 {
      HoldsThroughout(states, inv, i - 1);
    }
  }
}
