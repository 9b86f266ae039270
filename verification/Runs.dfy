/** Runs of an interleaved program.

A protocol is a state type, an action type (usually "which thread moves next") and a
total step function: an action that is blocked leaves the state alone. A run is then
determined by its schedule, so a statement about every schedule is a statement about
every interleaving.
*/
module Runs {

  /** The state reached from s by taking the actions of sched in order. */
  function Run<S, A>(step: (S, A) -> S, s: S, sched: seq<A>): S
    decreases |sched|
  {
    if sched == [] then s
    else step(Run(step, s, sched[..|sched| - 1]), sched[|sched| - 1])
  }

  /** How many actions of sched were enabled when their turn came. */
  function Moves<S, A>(step: (S, A) -> S, enabled: (S, A) -> bool, s: S, sched: seq<A>): nat
    decreases |sched|
  {
    if sched == [] then 0
    else
      var before := sched[..|sched| - 1];
      Moves(step, enabled, s, before)
      + if enabled(Run(step, s, before), sched[|sched| - 1]) then 1 else 0
  }

  /** One more action at the end of a schedule is one more step. */
  lemma RunAppend<S, A>(step: (S, A) -> S, s: S, sched: seq<A>, a: A)
    ensures Run(step, s, sched + [a]) == step(Run(step, s, sched), a)
  {
    assert (sched + [a])[..|sched|] == sched;
  }

  /** Two schedules one after the other. */
  lemma {:induction false} RunConcat<S, A>(step: (S, A) -> S, s: S, first: seq<A>, second: seq<A>)
    ensures Run(step, s, first + second) == Run(step, Run(step, s, first), second)
    decreases |second|
  {
    if second == [] {
      assert first + second == first;
    } else {
      var init, last := second[..|second| - 1], second[|second| - 1];
      RunConcat(step, s, first, init);
      assert first + second == (first + init) + [last];
      RunAppend(step, s, first + init, last);
    }
  }

  /** The first action, then the rest. */
  lemma RunHead<S, A>(step: (S, A) -> S, s: S, sched: seq<A>)
    requires sched != []
    ensures Run(step, s, sched) == Run(step, step(s, sched[0]), sched[1..])
  {
    RunConcat(step, s, sched[..1], sched[1..]);
    assert sched == sched[..1] + sched[1..];
    assert sched[..1] == [sched[0]];
    assert [sched[0]][..0] == [];
  }

  /** The states of a run, one after the other, with their actions. */
  lemma {:induction false} RunThrough<S, A>(step: (S, A) -> S, states: seq<S>, sched: seq<A>)
    requires |states| == |sched| + 1 && forall k | 0 <= k < |sched| :: step(states[k], sched[k]) == states[k + 1]
    ensures Run(step, states[0], sched) == states[|sched|]
    decreases |sched|
  {
    if sched != [] { RunThrough(step, states[..|sched|], sched[..|sched| - 1]); }
  }

  /** What every action of the schedule keeps, the whole run keeps. */
  lemma {:induction false} RunKeeps<S(!new), A(!new)>(step: (S, A) -> S, inv: S -> bool, s: S, sched: seq<A>)
    requires inv(s)
    requires forall x, a :: a in sched && inv(x) ==> inv(step(x, a))
    ensures inv(Run(step, s, sched))
    decreases |sched|
  {
    if sched == [] {
    } else {
      var before := sched[..|sched| - 1];
      assert forall a :: a in before ==> a in sched;
      RunKeeps(step, inv, s, before);
    }
  }

  /** A measure that every enabled action lowers bounds the moves of every schedule. */
  lemma {:induction false} MovesBounded<S(!new), A(!new)>(
    step: (S, A) -> S, enabled: (S, A) -> bool, inv: S -> bool, measure: S -> nat, s: S, sched: seq<A>)
    requires inv(s)
    requires forall x, a :: a in sched && inv(x) ==> inv(step(x, a))
    requires forall x, a :: a in sched && inv(x) ==>
      measure(step(x, a)) + (if enabled(x, a) then 1 else 0) <= measure(x)
    ensures inv(Run(step, s, sched))
    ensures measure(Run(step, s, sched)) + Moves(step, enabled, s, sched) <= measure(s)
    decreases |sched|
  {
    if sched == [] {
    } else {
      var before := sched[..|sched| - 1];
      assert forall a :: a in before ==> a in sched;
      MovesBounded(step, enabled, inv, measure, s, before);
    }
  }

  /** A measure that every enabled action lowers by one counts the moves of every schedule. */
  lemma {:induction false} MovesExact<S(!new), A(!new)>(
    step: (S, A) -> S, enabled: (S, A) -> bool, inv: S -> bool, measure: S -> nat, s: S, sched: seq<A>)
    requires inv(s)
    requires forall x, a :: a in sched && inv(x) ==> inv(step(x, a))
    requires forall x, a :: a in sched && inv(x) ==>
      measure(step(x, a)) + (if enabled(x, a) then 1 else 0) == measure(x)
    ensures inv(Run(step, s, sched))
    ensures measure(Run(step, s, sched)) + Moves(step, enabled, s, sched) == measure(s)
    decreases |sched|
  {
    if sched == [] {
    } else {
      var before := sched[..|sched| - 1];
      assert forall a :: a in before ==> a in sched;
      MovesExact(step, enabled, inv, measure, s, before);
    }
  }
}
