/**
 * The per-step discrete logic of update in gif_cond_exp_multisynapse.cpp,
 * as functions of the node's value: adaptation decay, one integration step,
 * synaptic input, the refractory countdown, the delayed adaptation jumps, the
 * spike decision and the bookkeeping of a spike.
 *
 * What this model cannot compute comes in through an Environment: the GSL
 * integration over one resolution step (flow and its status), std::exp, and
 * the uniform random number drawn at each step.
 */
module Dynamics {
  import opened Wrappers
  import opened StateLayout
  import opened Parameters
  import opened NeuronState
  import opened NodeModel

  /** GSL's success status. */
  const GSL_SUCCESS: int := 0

  datatype Environment = Environment(
    // y_[k] after integrating the dynamics over one resolution step from y_,
    // with the spike-triggered current stc_ and the external current y0_
    flow: (seq<real>, real, real, int) -> real,
    // the status gsl_odeiv_evolve_apply reports for that integration
    status: (seq<real>, real, real) -> int,
    // std::exp
    exp: real -> real,
    // the uniform number rng_->drand() returns at a simulation step
    draw: int -> real)

  /** One data-logger record: the step and the two recordables V_m and E_sfa. */
  datatype Record = Record(step: int, vM: real, eSfa: real)

  datatype StepOutcome =
    | Stepped(s: State, spiked: bool, record: Record)
    | SolverFailed(s: State, status: int)   // GSLSolverFailure is thrown

  /** The sum of a sequence, accumulated front to back as the loops do. */
  function Sum(s: seq<real>): real
  {
    if |s| == 0 then 0.0 else Sum(s[..|s| - 1]) + s[|s| - 1]
  }

  /** Every element multiplied by its factor. */
  function Scaled(elems: seq<real>, factors: seq<real>): (r: seq<real>)
    requires |elems| <= |factors|
    ensures |r| == |elems| && forall i :: 0 <= i < |elems| ==> r[i] == factors[i] * elems[i]
  {
    seq(|elems|, i requires 0 <= i < |elems| => factors[i] * elems[i])
  }

  /** Every element increased by its jump. */
  function Bumped(elems: seq<real>, jumps: seq<real>): (r: seq<real>)
    requires |elems| <= |jumps|
    ensures |r| == |elems| && forall i :: 0 <= i < |elems| ==> r[i] == elems[i] + jumps[i]
  {
    seq(|elems|, i requires 0 <= i < |elems| => elems[i] + jumps[i])
  }

  /**
   * The start of a step: stc_ and q_ take the sums of the accumulators
   * before they decay (q_ on top of v_t_star), then every accumulator decays
   * by its factor.
   */
  function Decayed(s: State, p: Params, v: Variables): (r: State)
    requires |s.stcElems| <= |v.q44| && |s.sfaElems| <= |v.q33|
    ensures |r.stcElems| == |s.stcElems| && |r.sfaElems| == |s.sfaElems|
    ensures r.(stc := s.stc, stcElems := s.stcElems, q := s.q, sfaElems := s.sfaElems) == s
  {
    s.(stc := Sum(s.stcElems), stcElems := Scaled(s.stcElems, v.q44),
       q := Sum(s.sfaElems) + p.vTStar, sfaElems := Scaled(s.sfaElems, v.q33))
  }

  /** The state vector after one successful integration step. */
  function Integrated(s: State, env: Environment): (r: State)
    ensures |r.y| == |s.y| && r.(y := s.y) == s
  {
    s.(y := seq(|s.y|, k => env.flow(s.y, s.stc, s.y0, k)))
  }

  /** Element k of the state vector after the input of the first n receptors at step t is added. */
  function InputAt(y: seq<real>, b: Buffers, t: int, n: nat, k: nat): real
    requires k < |y| && n <= |b.spikeExc| && n <= |b.spikeInh|
  {
    if 1 <= k && ReceptorOf(k) < n then
      y[k] + Read(if IsExcitatorySlot(k) then b.spikeExc[ReceptorOf(k)] else b.spikeInh[ReceptorOf(k)], t)
    else y[k]
  }

  /** The state vector after the input of the first n receptors at step t is added. */
  function WithInput(y: seq<real>, b: Buffers, t: int, n: nat): (r: seq<real>)
    requires n <= |b.spikeExc| && n <= |b.spikeInh|
    ensures |r| == |y|
  {
    seq(|y|, k requires 0 <= k < |y| => InputAt(y, b, t, n, k))
  }

  /**
   * Synaptic input is added, never substituted: the two slots of every
   * receptor i < n gain that receptor's buffered input, and every other
   * element, V_M included, stays.
   */
  lemma WithInputAddsToSlots(y: seq<real>, b: Buffers, t: int, n: nat)
    requires n <= |b.spikeExc| && n <= |b.spikeInh| && StateSize(n) <= |y|
    ensures var r := WithInput(y, b, t, n);
      && r[V_M] == y[V_M]
      && (forall i :: 0 <= i < n ==> r[ExcSlot(i)] == y[ExcSlot(i)] + Read(b.spikeExc[i], t))
      && (forall i :: 0 <= i < n ==> r[InhSlot(i)] == y[InhSlot(i)] + Read(b.spikeInh[i], t))
      && (forall k :: StateSize(n) <= k < |y| ==> r[k] == y[k])
  {
  }

  /** Adding receptor i's input to the vector that holds the first i receptors' input yields the first i + 1. */
  lemma WithInputNext(y: seq<real>, b: Buffers, t: int, i: nat)
    requires i + 1 <= |b.spikeExc| && i + 1 <= |b.spikeInh| && StateSize(i + 1) <= |y|
    ensures var w := WithInput(y, b, t, i);
      WithInput(y, b, t, i + 1) ==
        w[ExcSlot(i) := w[ExcSlot(i)] + Read(b.spikeExc[i], t)][InhSlot(i) := w[InhSlot(i)] + Read(b.spikeInh[i], t)]
  {
    var w := WithInput(y, b, t, i);
    var u := w[ExcSlot(i) := w[ExcSlot(i)] + Read(b.spikeExc[i], t)][InhSlot(i) := w[InhSlot(i)] + Read(b.spikeInh[i], t)];
    forall k | 0 <= k < |y|
      ensures WithInput(y, b, t, i + 1)[k] == u[k]
    {
      if 1 <= k {
        SlotsTileStateVector(i + 1, k);
      }
    }
  }

  /** The pending jumps of the last spike: every accumulator gains its q, and stc_ and q_ gain the sums. */
  function Jumped(s: State, p: Params): (r: State)
    requires |s.stcElems| <= |p.qStc| && |s.sfaElems| <= |p.qSfa|
    ensures !r.addStcSfa && |r.stcElems| == |s.stcElems| && |r.sfaElems| == |s.sfaElems|
    ensures r.y == s.y && r.rRef == s.rRef && r.y0 == s.y0 && r.initialized == s.initialized
  {
    s.(addStcSfa := false,
       stcElems := Bumped(s.stcElems, p.qStc), stc := s.stc + Sum(p.qStc[..|s.stcElems|]),
       sfaElems := Bumped(s.sfaElems, p.qSfa), q := s.q + Sum(p.qSfa[..|s.sfaElems|]))
  }

  /** lambda = lambda0 * exp((V_m - q_) / delta_u). */
  function Intensity(s: State, p: Params, env: Environment): (lambda: real)
    requires |s.y| > V_M && p.deltaU != 0.0
    ensures p.lambda0 == 0.0 ==> lambda == 0.0
  {
    p.lambda0 * env.exp((s.y[V_M] - s.q) / p.deltaU)
  }

  /** Whether the step's draw is at most the spike probability -expm1(-lambda h / 1000). */
  function SpikeDrawn(lambda: real, h: real, env: Environment, t: int): bool
  {
    env.draw(t) <= -(env.exp(-lambda * (h / 1000.0)) - 1.0)
  }

  /**
   * The refractory branch and spike bookkeeping: a refractory neuron counts
   * down and is clamped to V_reset; a free one first adds the pending jumps,
   * then spikes when lambda > 0 and the draw falls under the spike
   * probability, which sets the pending flag and restarts the countdown.
   */
  function Reacted(s: State, p: Params, v: Variables, env: Environment, t: int): (r: (State, bool))
    requires |s.y| > V_M && p.deltaU != 0.0
    requires |s.stcElems| <= |p.qStc| && |s.sfaElems| <= |p.qSfa|
    ensures |r.0.y| == |s.y| && r.0.initialized == s.initialized
    ensures |r.0.stcElems| == |s.stcElems| && |r.0.sfaElems| == |s.sfaElems|
    ensures r.1 ==> s.rRef == 0 && r.0.rRef == v.refractoryCounts && r.0.addStcSfa
    ensures s.rRef != 0 ==> !r.1 && r.0.rRef == s.rRef - 1 && r.0.y[V_M] == p.vReset
    ensures s.rRef != 0 ==> r.0.addStcSfa == s.addStcSfa && r.0.stcElems == s.stcElems
  {
    if s.rRef == 0 then
      var s1 := if s.addStcSfa then Jumped(s, p) else s;
      var lambda := Intensity(s1, p, env);
      if lambda > 0.0 && SpikeDrawn(lambda, v.h, env, t) then
        (s1.(addStcSfa := true, rRef := v.refractoryCounts), true)
      else (s1, false)
    else (s.(rRef := s.rRef - 1, y := s.y[V_M := p.vReset]), false)
  }

  /** One iteration of the loop of update, at absolute step t = origin + lag. */
  function Step(n: Node, env: Environment, t: int): (r: StepOutcome)
    requires Calibrated(n)
    ensures Fits(n.P, n.V, r.s)
  {
    var s1 := Decayed(n.S, n.P, n.V);
    var status := env.status(s1.y, s1.stc, s1.y0);
    if status != GSL_SUCCESS then SolverFailed(s1, status)
    else
      var s2 := Integrated(s1, env);
      var s3 := s2.(y := WithInput(s2.y, n.B, t, n.P.numReceptors));
      var reacted := Reacted(s3, n.P, n.V, env, t);
      var s4 := reacted.0.(y0 := Read(n.B.currents, t));
      Stepped(s4, reacted.1, Record(t, MembranePotential(s4), AdaptiveThreshold(s4)))
  }

  /**
   * Every step, refractory or not, sets stc_ to the sum of the stc
   * accumulators before they decay and q_ to the sum of the sfa accumulators
   * plus v_t_star, and decays each accumulator by its factor. A pending jump
   * is added on top only at a step that starts non-refractory, which also
   * clears the flag; a refractory step leaves the flag as it was and a spike
   * sets it.
   */
  lemma StepAdaptation(n: Node, env: Environment, t: int)
    requires Calibrated(n)
    ensures var r := Step(n, env, t);
      var pending := r.Stepped? && n.S.addStcSfa && n.S.rRef == 0;
      && r.s.stcElems == (if pending then Bumped(Scaled(n.S.stcElems, n.V.q44), n.P.qStc)
                          else Scaled(n.S.stcElems, n.V.q44))
      && r.s.stc == Sum(n.S.stcElems) + (if pending then Sum(n.P.qStc) else 0.0)
      && r.s.sfaElems == (if pending then Bumped(Scaled(n.S.sfaElems, n.V.q33), n.P.qSfa)
                          else Scaled(n.S.sfaElems, n.V.q33))
      && r.s.q == Sum(n.S.sfaElems) + n.P.vTStar + (if pending then Sum(n.P.qSfa) else 0.0)
      && r.s.addStcSfa == (if r.Stepped? && r.spiked then true else if pending then false else n.S.addStcSfa)
  {
    assert n.P.qStc[..|n.S.stcElems|] == n.P.qStc;
    assert n.P.qSfa[..|n.S.sfaElems|] == n.P.qSfa;
  }

  /**
   * The refractory counter: a spike happens only at a step that starts with
   * r_ref_ == 0 and restarts it at RefractoryCounts_; otherwise it counts down
   * by one to zero; a solver failure leaves it alone.
   */
  lemma StepRefractoryCounter(n: Node, env: Environment, t: int)
    requires Calibrated(n)
    ensures var r := Step(n, env, t);
      && (r.SolverFailed? ==> r.s.rRef == n.S.rRef)
      && (r.Stepped? && r.spiked ==> n.S.rRef == 0 && r.s.rRef == n.V.refractoryCounts)
      && (r.Stepped? && !r.spiked ==> r.s.rRef == (if n.S.rRef > 0 then n.S.rRef - 1 else 0))
  {
  }

  /**
   * A step that starts refractory ends with V_m == V_reset whatever the
   * integrator produced, emits no spike, and logs V_reset.
   */
  lemma StepRefractoryClamp(n: Node, env: Environment, t: int)
    requires Calibrated(n) && n.S.rRef > 0
    ensures var r := Step(n, env, t);
      r.Stepped? ==> && MembranePotential(r.s) == n.P.vReset && !r.spiked && r.record.vM == n.P.vReset
  {
  }

  /**
   * The spike decision: a step spikes exactly when it starts non-refractory,
   * its intensity (on the state after input and pending jumps) is positive and
   * the draw falls under the spike probability.
   */
  lemma StepSpikeDecision(n: Node, env: Environment, t: int)
    requires Calibrated(n)
    ensures var r := Step(n, env, t);
      r.Stepped? ==>
        (r.spiked <==>
           && n.S.rRef == 0
           && Intensity(r.s, n.P, env) > 0.0
           && SpikeDrawn(Intensity(r.s, n.P, env), n.V.h, env, t))
  {
    var r := Step(n, env, t);
    if r.Stepped? {
      var s1 := Decayed(n.S, n.P, n.V);
      var s2 := Integrated(s1, env);
      var s3 := s2.(y := WithInput(s2.y, n.B, t, n.P.numReceptors));
      var reacted := Reacted(s3, n.P, n.V, env, t);
      assert r.s == reacted.0.(y0 := Read(n.B.currents, t)) && r.spiked == reacted.1;
      assert r.s.y == reacted.0.y && r.s.q == reacted.0.q;
      assert Intensity(r.s, n.P, env) == Intensity(reacted.0, n.P, env);
      if n.S.rRef == 0 {
        var s4 := if s3.addStcSfa then Jumped(s3, n.P) else s3;
        assert Intensity(reacted.0, n.P, env) == Intensity(s4, n.P, env);
      }
    }
  }

  /** With lambda0 == 0 the intensity is 0 and no step spikes. */
  lemma StepSilentWithoutIntensity(n: Node, env: Environment, t: int)
    requires Calibrated(n) && n.P.lambda0 == 0.0
    ensures var r := Step(n, env, t); r.Stepped? ==> !r.spiked
  {
  }

  /**
   * The input of a step lands additively in the conductance slots, after
   * integration: receptor i's excitatory slot holds the integrated value
   * plus that receptor's excitatory input for the step, likewise inhibitory;
   * the external current y0_ becomes the step's current input and the log
   * records the new V_m and E_sfa.
   */
  lemma StepInput(n: Node, env: Environment, t: int)
    requires Calibrated(n)
    ensures var r := Step(n, env, t);
      var s1 := Decayed(n.S, n.P, n.V);
      r.Stepped? ==>
        && (forall i :: 0 <= i < n.P.numReceptors ==>
              r.s.y[ExcSlot(i)] == env.flow(s1.y, s1.stc, s1.y0, ExcSlot(i)) + Read(n.B.spikeExc[i], t))
        && (forall i :: 0 <= i < n.P.numReceptors ==>
              r.s.y[InhSlot(i)] == env.flow(s1.y, s1.stc, s1.y0, InhSlot(i)) + Read(n.B.spikeInh[i], t))
        && (n.S.rRef == 0 ==> MembranePotential(r.s) == env.flow(s1.y, s1.stc, s1.y0, V_M))
        && r.s.y0 == Read(n.B.currents, t)
        && r.record == Record(t, MembranePotential(r.s), AdaptiveThreshold(r.s))
  {
    var s2 := Integrated(Decayed(n.S, n.P, n.V), env);
    WithInputAddsToSlots(s2.y, n.B, t, n.P.numReceptors);
  }

  /** A solver failure aborts the step after the decay phase, with GSL's non-success status. */
  lemma StepSolverFailure(n: Node, env: Environment, t: int)
    requires Calibrated(n)
    ensures var r := Step(n, env, t);
      r.SolverFailed? <==> env.status(Decayed(n.S, n.P, n.V).y, Sum(n.S.stcElems), n.S.y0) != GSL_SUCCESS
    ensures var r := Step(n, env, t);
      r.SolverFailed? ==> r.s == Decayed(n.S, n.P, n.V) && r.status != GSL_SUCCESS
  {
  }

  /** What a call update(origin, from, to) produces: the state, spike times, log and the failure status if any. */
  datatype RunResult = RunResult(s: State, spikes: seq<int>, log: seq<Record>, failure: Option<int>)

  /**
   * The loop of update over lag in [from, to): step after step until a
   * solver failure stops it; a spike at lag is sent with time origin + lag + 1.
   */
  function Run(n: Node, env: Environment, origin: int, fromLag: int, toLag: int): (r: RunResult)
    requires Calibrated(n)
    ensures Fits(n.P, n.V, r.s)
    decreases toLag - fromLag, 1
  {
    if toLag <= fromLag then RunResult(n.S, [], [], None)
    else
      var r := Run(n, env, origin, fromLag, toLag - 1);
      if r.failure.Some? then r
      else
        match StepAt(n, env, origin, fromLag, toLag - 1)
        case SolverFailed(s, status) => RunResult(s, r.spikes, r.log, Some(status))
        case Stepped(s, spiked, record) =>
          RunResult(s, r.spikes + (if spiked then [origin + toLag] else []), r.log + [record], None)
  }

  /** The step at lag of a run from fromLag: Step on the state the earlier steps left. */
  function StepAt(n: Node, env: Environment, origin: int, fromLag: int, lag: int): (r: StepOutcome)
    requires Calibrated(n) && fromLag <= lag
    ensures Fits(n.P, n.V, r.s)
    decreases lag - fromLag + 1, 0
  {
    Step(n.(S := Run(n, env, origin, fromLag, lag).s), env, origin + lag)
  }

  /** Whether the steps from fromLag up to lag produce r. */
  ghost predicate RunReaches(n: Node, env: Environment, origin: int, fromLag: int, lag: int, r: RunResult)
    requires Calibrated(n)
  {
    Run(n, env, origin, fromLag, lag) == r
  }

  /** The run one step longer: the step at lag runs on the state the earlier steps left. */
  lemma RunAdvance(n: Node, env: Environment, origin: int, fromLag: int, lag: int, r: RunResult, st: StepOutcome)
    requires Calibrated(n) && fromLag <= lag
    requires RunReaches(n, env, origin, fromLag, lag, r) && r.failure.None?
    requires st == Step(n.(S := r.s), env, origin + lag)
    ensures RunReaches(n, env, origin, fromLag, lag + 1,
      match st
      case SolverFailed(s, status) => RunResult(s, r.spikes, r.log, Some(status))
      case Stepped(s, spiked, record) =>
        RunResult(s, r.spikes + (if spiked then [origin + lag + 1] else []), r.log + [record], None))
  {
    assert StepAt(n, env, origin, fromLag, lag) == st;
  }

  /** Once a run failed, running further changes nothing: the exception ended update. */
  lemma {:induction false} RunStopsAtFailure(n: Node, env: Environment, origin: int, fromLag: int, k: int, toLag: int)
    requires Calibrated(n) && k <= toLag
    requires Run(n, env, origin, fromLag, k).failure.Some?
    ensures Run(n, env, origin, fromLag, toLag) == Run(n, env, origin, fromLag, k)
    decreases toLag - k
  {
    if k < toLag {
      RunStopsAtFailure(n, env, origin, fromLag, k, toLag - 1);
    }
  }

  /**
   * The log holds one record per completed step, in step order; without a
   * failure it covers the whole range.
   */
  lemma {:induction false} RunLogsEveryStep(n: Node, env: Environment, origin: int, fromLag: int, toLag: int)
    requires Calibrated(n) && fromLag <= toLag
    ensures var r := Run(n, env, origin, fromLag, toLag);
      && |r.log| <= toLag - fromLag
      && (r.failure.None? ==> |r.log| == toLag - fromLag)
      && (forall i :: 0 <= i < |r.log| ==> r.log[i].step == origin + fromLag + i)
    decreases toLag - fromLag
  {
    if fromLag < toLag {
      RunLogsEveryStep(n, env, origin, fromLag, toLag - 1);
    }
  }

  /** A neuron with lambda0 == 0 never spikes, over any range of steps. */
  lemma {:induction false} RunSilentWithoutIntensity(n: Node, env: Environment, origin: int, fromLag: int, toLag: int)
    requires Calibrated(n) && n.P.lambda0 == 0.0
    ensures Run(n, env, origin, fromLag, toLag).spikes == []
    decreases toLag - fromLag
  {
    if fromLag < toLag {
      var r := Run(n, env, origin, fromLag, toLag - 1);
      RunSilentWithoutIntensity(n, env, origin, fromLag, toLag - 1);
      if r.failure.None? {
        StepSilentWithoutIntensity(n.(S := r.s), env, origin + toLag - 1);
      }
    }
  }

  /**
   * What one more step does to the spike train and the refractory counter:
   * either it spikes, which the counter allowed and then restarts, or the
   * train stays and the counter stays, counts down or sits at zero.
   */
  lemma RunStepRefractory(n: Node, env: Environment, origin: int, fromLag: int, toLag: int)
    requires Calibrated(n) && fromLag < toLag
    ensures var r0 := Run(n, env, origin, fromLag, toLag - 1);
      var r := Run(n, env, origin, fromLag, toLag);
      || (r.spikes == r0.spikes + [origin + toLag] && r0.s.rRef == 0 && r.s.rRef == n.V.refractoryCounts)
      || (r.spikes == r0.spikes && (r.s.rRef == r0.s.rRef || r.s.rRef == r0.s.rRef - 1 || r.s.rRef == 0))
  {
    var r0 := Run(n, env, origin, fromLag, toLag - 1);
    if r0.failure.None? {
      assert StepAt(n, env, origin, fromLag, toLag - 1) == Step(n.(S := r0.s), env, origin + toLag - 1);
      StepRefractoryCounter(n.(S := r0.s), env, origin + toLag - 1);
    }
  }

  /** Consecutive spike times at least rc + 1 steps apart. */
  ghost predicate Spaced(spikes: seq<int>, rc: nat)
  {
    forall i :: 0 <= i < |spikes| - 1 ==> spikes[i] + rc + 1 <= spikes[i + 1]
  }

  /** A spike far enough after the last keeps the spike train spaced. */
  lemma SpacedAppend(spikes: seq<int>, t: int, rc: nat)
    requires Spaced(spikes, rc)
    requires |spikes| > 0 ==> spikes[|spikes| - 1] + rc + 1 <= t
    ensures Spaced(spikes + [t], rc)
  {
  }

  /**
   * The refractory counter keeps track of the time since the last spike of
   * a run, or, before any spike, of the time since the run began.
   */
  lemma {:induction false} RunRefractoryTracksLastSpike(n: Node, env: Environment, origin: int, fromLag: int, toLag: int)
    requires Calibrated(n) && fromLag <= toLag
    ensures var r := Run(n, env, origin, fromLag, toLag);
      && (|r.spikes| > 0 ==> r.s.rRef >= r.spikes[|r.spikes| - 1] + n.V.refractoryCounts - (origin + toLag))
      && (|r.spikes| == 0 ==> r.s.rRef >= n.S.rRef - (toLag - fromLag))
    decreases toLag - fromLag
  {
    if fromLag < toLag {
      RunRefractoryTracksLastSpike(n, env, origin, fromLag, toLag - 1);
      RunStepRefractory(n, env, origin, fromLag, toLag);
    }
  }

  /**
   * Refractoriness over a run: the first spike comes no earlier than the
   * initial refractory count allows, and consecutive spikes are more than
   * RefractoryCounts_ steps apart.
   */
  lemma {:induction false} RunSpikesSpaced(n: Node, env: Environment, origin: int, fromLag: int, toLag: int)
    requires Calibrated(n) && fromLag <= toLag
    ensures var r := Run(n, env, origin, fromLag, toLag);
      && Spaced(r.spikes, n.V.refractoryCounts)
      && (|r.spikes| > 0 ==> r.spikes[0] >= origin + fromLag + n.S.rRef + 1)
    decreases toLag - fromLag
  {
    if fromLag < toLag {
      var r0 := Run(n, env, origin, fromLag, toLag - 1);
      var r := Run(n, env, origin, fromLag, toLag);
      RunSpikesSpaced(n, env, origin, fromLag, toLag - 1);
      RunRefractoryTracksLastSpike(n, env, origin, fromLag, toLag - 1);
      RunStepRefractory(n, env, origin, fromLag, toLag);
      if r.spikes != r0.spikes {
        SpacedAppend(r0.spikes, origin + toLag, n.V.refractoryCounts);
      }
    }
  }

  /** A refractory counter within [0, RefractoryCounts_] stays there over any run. */
  lemma {:induction false} RunKeepsRefractoryBound(n: Node, env: Environment, origin: int, fromLag: int, toLag: int)
    requires Calibrated(n) && n.S.rRef <= n.V.refractoryCounts
    ensures 0 <= Run(n, env, origin, fromLag, toLag).s.rRef <= n.V.refractoryCounts
    decreases toLag - fromLag
  {
    if fromLag < toLag {
      RunKeepsRefractoryBound(n, env, origin, fromLag, toLag - 1);
      RunStepRefractory(n, env, origin, fromLag, toLag);
    }
  }
}
