/** Runs of a machine whose steps may be disabled. */
module Runs {
  import opened Wrappers

  /** The state after these actions, or None where one of them is not enabled. */
  ghost function Exec<S, A>(step: (S, A) -> Option<S>, s: S, acts: seq<A>): Option<S>
    decreases |acts|
  {
    if acts == [] then Some(s)
    else if step(s, acts[0]).None? then None
    else Exec(step, step(s, acts[0]).value, acts[1..])
  }

  lemma {:induction false} ExecAppend<S, A>(step: (S, A) -> Option<S>, s: S, a: seq<A>, b: seq<A>)
    requires Exec(step, s, a).Some?
    ensures Exec(step, s, a + b) == Exec(step, Exec(step, s, a).value, b)
    decreases |a|
  {
    if a == [] {
      assert a + b == b;
    } else {
      assert (a + b)[1..] == a[1..] + b;
      ExecAppend(step, step(s, a[0]).value, a[1..], b);
    }
  }

  /** Each action leads from one of the states to the next. */
  ghost predicate Leads<S, A>(step: (S, A) -> Option<S>, states: seq<S>, acts: seq<A>) {
    |states| == |acts| + 1 && forall i :: 0 <= i < |acts| ==> step(states[i], acts[i]) == Some(states[i + 1])
  }

  /** A list of states, each following from the one before, is a run. */
  lemma {:induction false} ExecLeads<S, A>(step: (S, A) -> Option<S>, states: seq<S>, acts: seq<A>)
    requires Leads(step, states, acts)
    ensures Exec(step, states[0], acts) == Some(states[|acts|])
    decreases |acts|
  {
    if acts != [] {
      ExecLeads(step, states[1..], acts[1..]);
    }
  }

  ghost predicate Linked<S>(follows: (S, S) -> bool, run: seq<S>, i: nat) {
    i + 1 < |run| ==> follows(run[i], run[i + 1])
  }

  /** A run as the list of its states, each following from the one before. */
  ghost predicate IsRun<S>(follows: (S, S) -> bool, run: seq<S>) {
    run != [] && forall i: nat :: Linked(follows, run, i)
  }

  ghost predicate Keeps<S(!new)>(follows: (S, S) -> bool, inv: S -> bool) {
    forall s, u :: follows(s, u) && inv(s) ==> inv(u)
  }

  /** What every step keeps holds in every state of a run. */
  lemma {:induction false} Invariant<S(!new)>(follows: (S, S) -> bool, inv: S -> bool, run: seq<S>, i: nat)
    requires IsRun(follows, run) && inv(run[0]) && i < |run| && Keeps(follows, inv)
    ensures inv(run[i])
    decreases i
  {
    if i > 0 {
      Invariant(follows, inv, run, i - 1);
      assert Linked(follows, run, i - 1);
    }
  }

  ghost predicate Preserves<S(!new), A(!new)>(step: (S, A) -> Option<S>, inv: S -> bool) {
    forall s, a :: inv(s) && step(s, a).Some? ==> inv(step(s, a).value)
  }

  /** What every action keeps holds after any of them, in any order. */
  lemma {:induction false} ExecInvariant<S(!new), A(!new)>(step: (S, A) -> Option<S>, inv: S -> bool, s: S, acts: seq<A>)
    requires inv(s) && Exec(step, s, acts).Some? && Preserves(step, inv)
    ensures inv(Exec(step, s, acts).value)
    decreases |acts|
  {
    if acts != [] {
      ExecInvariant(step, inv, step(s, acts[0]).value, acts[1..]);
    }
  }

  // ----- jobs that end -----

  /** How many of the actions are of one's own. */
  ghost function Count<A>(own: A -> bool, acts: seq<A>): nat {
    if acts == [] then 0 else (if own(acts[0]) then 1 else 0) + Count(own, acts[1..])
  }

  /** While busy there is work left; own actions use it up and no action adds any;
      one is busy until it is over. */
  ghost predicate Works<S(!new), A(!new)>(
    step: (S, A) -> Option<S>, busy: S -> bool, over: S -> bool, work: S -> nat, own: A -> bool)
  {
    && (forall s :: busy(s) ==> work(s) > 0)
    && (forall s, a :: busy(s) && step(s, a).Some? ==>
          var u := step(s, a).value;
          (busy(u) || over(u)) && work(u) + (if own(a) then 1 else 0) <= work(s))
  }

  /** After the first n actions the job is over. */
  ghost predicate OverAt<S, A>(step: (S, A) -> Option<S>, over: S -> bool, s: S, acts: seq<A>, n: nat) {
    n <= |acts| && Exec(step, s, acts[..n]).Some? && over(Exec(step, s, acts[..n]).value)
  }

  /** As many own actions as there is work end the job, whatever happens in between. */
  lemma {:induction false} JobEnds<S(!new), A(!new)>(
    step: (S, A) -> Option<S>, busy: S -> bool, over: S -> bool, work: S -> nat, own: A -> bool, s: S, acts: seq<A>)
    returns (n: nat)
    requires busy(s) && Works(step, busy, over, work, own) && Exec(step, s, acts).Some?
    requires Count(own, acts) >= work(s)
    ensures OverAt(step, over, s, acts, n) && Count(own, acts[..n]) <= work(s)
    decreases |acts|
  {
    var u := step(s, acts[0]).value;
    var rest := acts[1..];
    var m: nat := 0;
    if !over(u) {
      m := JobEnds(step, busy, over, work, own, u, rest);
    }
    n := m + 1;
    assert acts[..n][1..] == rest[..m];
  }
}
