/** Optional values, and the executions of step machines.

    A machine is a function `step(s, a)` that gives the next state when action `a` can happen
    in state `s`, and `None` when it cannot (the process is blocked, or the action belongs to
    another program point).  A schedule is any sequence of actions: "every reachable state" is
    "every state some schedule leads to". */
module Runs {

  datatype Option<+T> = None | Some(value: T)

  /** The state after a whole schedule, or `None` when some action of it could not happen. */
  function Exec<S, A>(step: (S, A) -> Option<S>, s: S, acts: seq<A>): Option<S> {
    if acts == [] then Some(s)
    else match step(s, acts[0])
      case None => None
      case Some(t) => Exec(step, t, acts[1..])
  }

  /** An invariant kept by every step holds after every schedule. */
  lemma {:induction false} Preserved<S(!new), A(!new)>(step: (S, A) -> Option<S>, inv: S -> bool, s: S, acts: seq<A>)
    requires inv(s)
    requires forall x, a :: inv(x) && step(x, a).Some? ==> inv(step(x, a).value)
    ensures Exec(step, s, acts).Some? ==> inv(Exec(step, s, acts).value)
  {
    if acts != [] && step(s, acts[0]).Some? {
      Preserved(step, inv, step(s, acts[0]).value, acts[1..]);
    }
  }

  /** When every step also lowers a measure, no schedule is longer than the first measure. */
  lemma {:induction false} Bounded<S(!new), A(!new)>(step: (S, A) -> Option<S>, inv: S -> bool, measure: S -> int,
                                                    s: S, acts: seq<A>)
    requires inv(s)
    requires forall x, a :: inv(x) && step(x, a).Some? ==>
               inv(step(x, a).value) && measure(step(x, a).value) < measure(x)
    ensures Exec(step, s, acts).Some? ==> |acts| + measure(Exec(step, s, acts).value) <= measure(s)
  {
    if acts != [] && step(s, acts[0]).Some? {
      Bounded(step, inv, measure, step(s, acts[0]).value, acts[1..]);
    }
  }

  /** When every step lowers it by one, it counts the steps. */
  lemma {:induction false} Counted<S(!new), A(!new)>(step: (S, A) -> Option<S>, inv: S -> bool, measure: S -> int,
                                                    s: S, acts: seq<A>)
    requires inv(s)
    requires forall x, a :: inv(x) && step(x, a).Some? ==>
               inv(step(x, a).value) && measure(step(x, a).value) == measure(x) - 1
    ensures Exec(step, s, acts).Some? ==> |acts| + measure(Exec(step, s, acts).value) == measure(s)
  {
    if acts != [] && step(s, acts[0]).Some? {
      Counted(step, inv, measure, step(s, acts[0]).value, acts[1..]);
    }
  }

  /** A schedule followed by another one. */
  lemma {:induction false} ExecConcat<S, A>(step: (S, A) -> Option<S>, s: S, first: seq<A>, second: seq<A>)
    ensures Exec(step, s, first + second)
         == match Exec(step, s, first) case None => None case Some(t) => Exec(step, t, second)
  {
    if first == [] {
      assert first + second == second;
    } else {
      assert (first + second)[1..] == first[1..] + second;
      if step(s, first[0]).Some? {
        ExecConcat(step, step(s, first[0]).value, first[1..], second);
      }
    }
  }

  /** Three actions, one after the other. */
  lemma Exec3<S, A>(step: (S, A) -> Option<S>, s0: S, s1: S, s2: S, s3: S, a: A, b: A, c: A)
    requires step(s0, a) == Some(s1) && step(s1, b) == Some(s2) && step(s2, c) == Some(s3)
    ensures Exec(step, s0, [a, b, c]) == Some(s3)
  {
    var r2, r3 := [b, c], [c];
    assert [a, b, c][1..] == r2 && r2[1..] == r3 && r3[1..] == [];
    assert Exec(step, s2, r3) == Some(s3);
    assert Exec(step, s1, r2) == Some(s3);
  }
}
