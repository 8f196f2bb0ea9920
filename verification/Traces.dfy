/**
 * Runs that are written out, of any transition system: its steps one after another.
 */
module Traces {
  /** The actions lead from `s` to `t`, by a step each. */
  ghost predicate Leads<S(!new), A(!new)>(step: (S, A, S) -> bool, s: S, actions: seq<A>, t: S)
    decreases |actions|
  {
    if actions == [] then t == s else exists next :: step(s, actions[0], next) && Leads(step, next, actions[1..], t)
  }

  datatype Trace<S(!new), A(!new)> = Trace(from: S, actions: seq<A>, to: S) {
    ghost predicate Valid(step: (S, A, S) -> bool) {
      Leads(step, from, actions, to)
    }
  }

  lemma {:induction false} LeadsOn<S(!new), A(!new)>(step: (S, A, S) -> bool, s: S, actions: seq<A>, t: S, a: A, u: S)
    requires Leads(step, s, actions, t) && step(t, a, u)
    ensures Leads(step, s, actions + [a], u)
    decreases |actions|
  {
    if actions == [] {
      assert [a][1..] == [] && Leads(step, u, [], u);
    } else {
      var next :| step(s, actions[0], next) && Leads(step, next, actions[1..], t);
      LeadsOn(step, next, actions[1..], t, a, u);
      assert (actions + [a])[1..] == actions[1..] + [a];
    }
  }

  lemma Extend<S(!new), A(!new)>(step: (S, A, S) -> bool, trace: Trace<S, A>, a: A, t: S) returns (longer: Trace<S, A>)
    requires trace.Valid(step) && step(trace.to, a, t)
    ensures longer.Valid(step) && longer.from == trace.from && longer.to == t
  {
    LeadsOn(step, trace.from, trace.actions, trace.to, a, t);
    longer := Trace(trace.from, trace.actions + [a], t);
  }

  /** The states it goes through. */
  lemma {:induction false} States<S(!new), A(!new)>(step: (S, A, S) -> bool, s: S, actions: seq<A>, t: S)
    returns (states: seq<S>)
    requires Leads(step, s, actions, t)
    ensures |states| == |actions| + 1 && states[0] == s && states[|actions|] == t
    ensures forall i :: 0 <= i < |actions| ==> step(states[i], actions[i], states[i + 1])
    decreases |actions|
  {
    states := [s];
    if actions != [] {
      var next :| step(s, actions[0], next) && Leads(step, next, actions[1..], t);
      var rest := States(step, next, actions[1..], t);
      states := [s] + rest;
      forall i | 0 <= i < |actions| ensures step(states[i], actions[i], states[i + 1]) {
        if i > 0 {
          assert actions[i] == actions[1..][i - 1];
        }
      }
    }
  }
}
