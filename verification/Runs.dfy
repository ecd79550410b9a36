/** Runs of a state machine, given by its step relation. */
module Runs {
  ghost predicate StepAt<S(!new)>(step: (S, S) -> bool, trace: seq<S>, i: int) {
    0 <= i < |trace| - 1 && step(trace[i], trace[i + 1])
  }

  ghost predicate Leads<S(!new)>(step: (S, S) -> bool, trace: seq<S>, s: S, t: S) {
    && |trace| > 0 && trace[0] == s && trace[|trace| - 1] == t
    && forall i :: 0 <= i < |trace| - 1 ==> StepAt(step, trace, i)
  }

  /** Some run leads from the first state to the second. */
  ghost predicate Later<S(!new)>(step: (S, S) -> bool, s: S, t: S) {
    exists trace :: Leads(step, trace, s, t)
  }

  lemma AtOnce<S(!new)>(step: (S, S) -> bool, s: S)
    ensures Later(step, s, s)
  {
    assert Leads(step, [s], s, s);
  }

  lemma Onwards<S(!new)>(step: (S, S) -> bool, s: S, t: S, u: S)
    requires Later(step, s, t) && step(t, u)
    ensures Later(step, s, u)
  {
    var trace :| Leads(step, trace, s, t);
    var longer := trace + [u];
    forall i | 0 <= i < |longer| - 1 ensures StepAt(step, longer, i) {
      if i < |trace| - 1 { assert StepAt(step, trace, i); }
    }
    assert Leads(step, longer, s, u);
  }

  /** What holds at the start of a run and is kept by every step holds at its end. */
  lemma {:induction false} TraceKeeps<S(!new)>(step: (S, S) -> bool, kept: S -> bool, trace: seq<S>, s: S, t: S)
    requires Leads(step, trace, s, t) && kept(s)
    requires forall u, v :: kept(u) && step(u, v) ==> kept(v)
    ensures kept(t)
  {
    if |trace| > 1 {
      var shorter, u := trace[..|trace| - 1], trace[|trace| - 2];
      forall i | 0 <= i < |shorter| - 1 ensures StepAt(step, shorter, i) { assert StepAt(step, trace, i); }
      TraceKeeps(step, kept, shorter, s, u);
      assert StepAt(step, trace, |trace| - 2);
    }
  }

  lemma LaterKeeps<S(!new)>(step: (S, S) -> bool, kept: S -> bool, s: S, t: S)
    requires Later(step, s, t) && kept(s)
    requires forall u, v :: kept(u) && step(u, v) ==> kept(v)
    ensures kept(t)
  {
    var trace :| Leads(step, trace, s, t);
    TraceKeeps(step, kept, trace, s, t);
  }

  /* ---- The same, given by actions ---- */

  ghost predicate Legal<S(!new), A(!new)>(enabled: (S, A) -> bool, apply: (S, A) -> S, s: S, run: seq<A>) {
    run == [] ||
    (Legal(enabled, apply, s, run[..|run| - 1]) && enabled(Exec(apply, s, run[..|run| - 1]), run[|run| - 1]))
  }

  ghost function Exec<S(!new), A(!new)>(apply: (S, A) -> S, s: S, run: seq<A>): S {
    if run == [] then s else apply(Exec(apply, s, run[..|run| - 1]), run[|run| - 1])
  }

  lemma Extend<S(!new), A(!new)>(enabled: (S, A) -> bool, apply: (S, A) -> S, s: S, run: seq<A>, a: A)
    requires Legal(enabled, apply, s, run) && enabled(Exec(apply, s, run), a)
    ensures Legal(enabled, apply, s, run + [a]) && Exec(apply, s, run + [a]) == apply(Exec(apply, s, run), a)
  {
    assert (run + [a])[..|run|] == run;
  }

  lemma {:induction false} RunLeads<S(!new), A(!new)>(
      enabled: (S, A) -> bool, apply: (S, A) -> S, step: (S, S) -> bool, s: S, run: seq<A>)
    requires Legal(enabled, apply, s, run)
    requires forall t, a :: enabled(t, a) ==> step(t, apply(t, a))
    ensures Later(step, s, Exec(apply, s, run))
  {
    if run == [] {
      AtOnce(step, s);
    } else {
      RunLeads(enabled, apply, step, s, run[..|run| - 1]);
      Onwards(step, s, Exec(apply, s, run[..|run| - 1]), Exec(apply, s, run));
    }
  }
}
