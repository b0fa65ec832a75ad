/** Executions over any step relation: built step by step, and searched for a first step. */
module Paths {
  ghost predicate Path<S(!new), T(!new)>(next: (S, T, S) -> bool, run: seq<S>, steps: seq<T>) {
    |run| == |steps| + 1 && forall i :: 0 <= i < |steps| ==> next(run[i], steps[i], run[i + 1])
  }

  /** The steps lead from `s` to `t`. */
  ghost predicate Leads<S(!new), T(!new)>(next: (S, T, S) -> bool, s: S, steps: seq<T>, t: S) {
    exists run :: Path(next, run, steps) && run[0] == s && run[|steps|] == t
  }

  lemma LeadsNowhere<S(!new), T(!new)>(next: (S, T, S) -> bool, s: S)
    ensures Leads(next, s, [], s)
  {
    assert Path<S, T>(next, [s], []);
  }

  lemma LeadsOn<S(!new), T(!new)>(next: (S, T, S) -> bool, s: S, steps: seq<T>, m: S, step: T, t: S)
    requires Leads(next, s, steps, m) && next(m, step, t)
    ensures Leads(next, s, steps + [step], t)
  {
    var run :| Path(next, run, steps) && run[0] == s && run[|steps|] == m;
    assert Path(next, run + [t], steps + [step]);
  }

  /** What each step keeps, all of them keep. */
  lemma {:induction false} Persist(flags: seq<bool>, i: nat, j: nat)
    requires i <= j < |flags| && flags[i] && forall x :: i <= x < j && flags[x] ==> flags[x + 1]
    ensures flags[j]
  {
    if i < j { Persist(flags, i, j - 1); }
  }

  /** What holds at `j` and not at first began to hold at some step, and has held since. */
  lemma {:induction false} Onset(flags: seq<bool>, j: nat) returns (n: nat)
    requires j < |flags| && flags[j] && !flags[0]
    ensures n < j && !flags[n] && flags[n + 1] && forall x :: n < x <= j ==> flags[x]
  {
    n := j - 1;
    if flags[j - 1] { n := Onset(flags, j - 1); }
  }
}
