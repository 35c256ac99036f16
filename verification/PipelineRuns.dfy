/** Going on from any state of the step system of StartConsuming (cdmp-mini/internal/pkg/server/consumer.go:567-763). */
module PipelineRuns {
  import opened Pipeline

  /** The state that further actions lead to. */
  function From(c: Config, s: State, acts: seq<Action>): (t: State)
    requires c.Valid() && |s.agg.buffers| == 3
    ensures |t.agg.buffers| == 3
    decreases |acts|
  {
    if acts == [] then s else From(c, Step(c, s, acts[0]), acts[1..])
  }

  lemma {:induction false} FromAppend(c: Config, s: State, xs: seq<Action>, ys: seq<Action>)
    requires c.Valid() && |s.agg.buffers| == 3
    ensures From(c, s, xs + ys) == From(c, From(c, s, xs), ys)
    decreases |xs|
  {
    if xs == [] {
      assert xs + ys == ys;
    } else {
      assert (xs + ys)[1..] == xs[1..] + ys;
      FromAppend(c, Step(c, s, xs[0]), xs[1..], ys);
    }
  }

  lemma {:induction false} ExecFrom(c: Config, run: seq<Action>, acts: seq<Action>)
    requires c.Valid()
    ensures Exec(c, run + acts) == From(c, Exec(c, run), acts)
    decreases |acts|
  {
    if acts == [] {
      assert run + acts == run;
    } else {
      var next := run + [acts[0]];
      assert next[..|run|] == run && run + acts == next + acts[1..];
      ExecFrom(c, next, acts[1..]);
    }
  }

  // ---- a run with the states it passes through ----

  ghost predicate StepsTo(c: Config, run: seq<Action>, states: seq<State>, k: nat)
    requires c.Valid() && k < |run| && |states| == |run| + 1
  {
    |states[k].agg.buffers| == 3 && states[k + 1] == Step(c, states[k], run[k])
  }

  ghost predicate IsRun(c: Config, run: seq<Action>, states: seq<State>)
    requires c.Valid()
  {
    && |states| == |run| + 1 && states[0] == Init(c) && |states[|run|].agg.buffers| == 3
    && forall k :: 0 <= k < |run| ==> StepsTo(c, run, states, k)
  }

  lemma RunSnoc(c: Config, run: seq<Action>, states: seq<State>, a: Action, t: State)
    requires c.Valid() && IsRun(c, run, states) && t == Step(c, states[|run|], a)
    ensures IsRun(c, run + [a], states + [t])
  {
    forall k | 0 <= k < |run + [a]| ensures StepsTo(c, run + [a], states + [t], k) {
      if k < |run| { assert StepsTo(c, run, states, k); }
    }
  }

  /** The states of a run are those that Exec gives. */
  lemma {:induction false} RunIsExec(c: Config, run: seq<Action>, states: seq<State>)
    requires c.Valid() && IsRun(c, run, states)
    ensures states[|run|] == Exec(c, run)
  {
    if run != [] {
      var n := |run| - 1;
      var rest, before := run[..n], states[..n + 1];
      assert StepsTo(c, run, states, n);
      forall k | 0 <= k < n ensures StepsTo(c, rest, before, k) { assert StepsTo(c, run, states, k); }
      RunIsExec(c, rest, before);
    }
  }
}
