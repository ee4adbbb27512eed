/**
 * The node object gif_cond_exp_multisynapse: P_, S_, V_ and B_ as fields the
 * member functions update in place. Every method is proved against the value
 * model: its effect on Value() is the corresponding function of the old value.
 */
module GifNeuron {
  import opened Wrappers
  import opened StateLayout
  import opened Parameters
  import opened NeuronState
  import opened NodeModel
  import opened StatusUpdate
  import opened Calibration
  import opened Events
  import opened Dynamics

  /**
   * The per-step loop over one adaptation list in update: sum the
   * accumulators as they were, and decay each by its factor in place.
   */
  method DecayAll(elems: seq<real>, factors: seq<real>) returns (sum: real, decayed: seq<real>)
    requires |elems| <= |factors|
    ensures sum == Sum(elems) && decayed == Scaled(elems, factors)
  {
    sum := 0.0;
    decayed := elems;
    var i := 0;
    while i < |decayed|
      invariant 0 <= i <= |decayed| == |elems|
      invariant sum == Sum(elems[..i])
      invariant forall j :: 0 <= j < i ==> decayed[j] == factors[j] * elems[j]
      invariant forall j :: i <= j < |decayed| ==> decayed[j] == elems[j]
    {
      assert elems[..i + 1][..i] == elems[..i];
      sum := sum + decayed[i];
      decayed := decayed[i := factors[i] * decayed[i]];
      i := i + 1;
    }
    assert elems[..i] == elems;
    assert decayed == Scaled(elems, factors) by {
      forall j | 0 <= j < |elems|
        ensures decayed[j] == Scaled(elems, factors)[j]
      {
      }
    }
  }

  /**
   * The loop over one adaptation list when a spike's jumps are added: each
   * accumulator gains its jump, and the jumps are summed.
   */
  method JumpAll(elems: seq<real>, jumps: seq<real>) returns (sum: real, bumped: seq<real>)
    requires |elems| <= |jumps|
    ensures sum == Sum(jumps[..|elems|]) && bumped == Bumped(elems, jumps)
  {
    sum := 0.0;
    bumped := elems;
    var i := 0;
    while i < |bumped|
      invariant 0 <= i <= |bumped| == |elems|
      invariant sum == Sum(jumps[..i])
      invariant forall j :: 0 <= j < i ==> bumped[j] == elems[j] + jumps[j]
      invariant forall j :: i <= j < |bumped| ==> bumped[j] == elems[j]
    {
      assert jumps[..i + 1][..i] == jumps[..i];
      bumped := bumped[i := bumped[i] + jumps[i]];
      sum := sum + jumps[i];
      i := i + 1;
    }
    assert bumped == Bumped(elems, jumps);
  }

  /** The port numbering loop of calibrate: receptor i listens on port i + 1. */
  method NumberPorts(types: seq<int>, k: nat) returns (r: seq<int>)
    ensures r == ReceptorTypes(k)
  {
    r := Resize(types, k, 0);
    var i := 0;
    while i < k
      invariant 0 <= i <= k == |r|
      invariant forall j :: 0 <= j < i ==> r[j] == j + 1
    {
      r := r[i := i + 1];
      i := i + 1;
    }
  }

  /**
   * One accumulator loop of calibrate: for every time constant, push its
   * decay factor exp(-h / tau) and a zero accumulator, starting from empty.
   */
  method DecayFactors(exp: real -> real, h: real, taus: seq<real>) returns (factors: seq<real>, elems: seq<real>)
    requires AllPositive(taus)
    ensures factors == Decays(exp, h, taus) && elems == Zeros(|taus|)
  {
    factors, elems := [], [];
    var i := 0;
    while i < |taus|
      invariant 0 <= i <= |taus| && |factors| == i && |elems| == i
      invariant forall j :: 0 <= j < i ==> factors[j] == exp(-h / taus[j]) && elems[j] == 0.0
    {
      factors := factors + [exp(-h / taus[i])];
      elems := elems + [0.0];
      i := i + 1;
    }
  }

  class Neuron {
    var P: Params
    var S: State
    var V: Variables
    var B: Buffers

    /** The node's value: its four parts. */
    function Value(): Node
      reads this
    {
      Node(P, S, V, B)
    }

    ghost predicate Valid()
      reads this
    {
      Coherent(Value())
    }

    /** The default constructor: default parameters, the state State_(P_), no receptors, nothing calibrated. */
    constructor ()
      ensures Value() == Node(DefaultParams(), InitialState(DefaultParams()), InitialVariables, InitialBuffers)
      ensures Valid()
    {
      P := DefaultParams();
      S := InitialState(DefaultParams());
      V := InitialVariables;
      B := InitialBuffers;
    }

    /**
     * set_status: validate a copy of P_, set a copy of S_, ask the base
     * class, and only then write both back; on an exception nothing changes.
     */
    method SetStatus(d: Status, archivingAccepts: bool) returns (error: Option<StatusError>)
      requires Valid()
      modifies this
      ensures (Value(), error) == SetStatusEffect(old(Value()), d, archivingAccepts)
      ensures Valid()
    {
      SetStatusAtomic(Value(), d, archivingAccepts);
      var ptmp := SetParameters(P, d);
      if ptmp.Err? {
        return Some(BadParameter(ptmp.error));
      }
      var stmp := StateSet(CopyState(S), d);
      if !archivingAccepts {
        return Some(ArchivingRejected);
      }
      P := ptmp.value;
      S := AssignState(S, stmp);
      error := None;
    }

    /** handles_test_event(SpikeEvent&, receptor_type): accept an existing port and lock has_connections_. */
    method HandlesSpikeTest(receptorType: int) returns (r: Result<int, PortError>)
      modifies this
      ensures match SpikePortTest(old(P), receptorType)
        case Ok(q) => P == q && r == Ok(receptorType)
        case Err(e) => P == old(P) && r == Err(e)
      ensures S == old(S) && V == old(V) && B == old(B)
      ensures Valid() <==> old(Valid())
    {
      if receptorType <= 0 || receptorType > P.numReceptors {
        return Err(IncompatibleReceptorType(receptorType));
      }
      P := P.(hasConnections := true);
      r := Ok(receptorType);
    }

    /**
     * calibrate: number the receptor ports, size buffers and state vector,
     * take h and the refractory step count, and set up the accumulators when
     * initialized_ is false, starting from empty lists.
     */
    method Calibrate(h: real, refractoryCounts: nat, exp: real -> real)
      requires Valid()
      modifies this
      ensures Value() == Calibration.Calibration(old(Value()), h, refractoryCounts, exp)
      ensures Calibrated(Value())
    {
      var k := P.numReceptors;
      var types := NumberPorts(P.receptorTypes, k);
      P := P.(receptorTypes := types);
      B := B.(spikeExc := Resize(B.spikeExc, k, map[]), spikeInh := Resize(B.spikeInh, k, map[]));
      S := S.(y := Resize(S.y, StateSize(k), 0.0));
      V := V.(h := h, refractoryCounts := refractoryCounts);
      if !S.initialized {
        var q33, sfa := DecayFactors(exp, h, P.tauSfa);
        var q44, stc := DecayFactors(exp, h, P.tauStc);
        V := V.(q33 := q33, q44 := q44);
        S := S.(sfaElems := sfa, stcElems := stc, initialized := true);
      }
    }

    /** The start of a step of update: stc_ and q_ from the accumulators, which then decay. */
    method DecayAdaptation()
      requires Fits(P, V, S)
      modifies this
      ensures P == old(P) && V == old(V) && B == old(B)
      ensures S == Decayed(old(S), P, V)
    {
      var sum, elems := DecayAll(S.stcElems, V.q44);
      S := S.(stcElems := elems, stc := sum);
      sum, elems := DecayAll(S.sfaElems, V.q33);
      S := S.(sfaElems := elems, q := sum + P.vTStar);
    }

    /** The GSL integration over one step; a non-success status leaves y_ as it was. */
    method Integrate(env: Environment) returns (status: int)
      modifies this
      ensures P == old(P) && V == old(V) && B == old(B)
      ensures status == env.status(old(S).y, old(S).stc, old(S).y0)
      ensures S == (if status == GSL_SUCCESS then Integrated(old(S), env) else old(S))
    {
      status := env.status(S.y, S.stc, S.y0);
      if status == GSL_SUCCESS {
        S := Integrated(S, env);
      }
    }

    /** The input loop of update: every receptor's buffered conductance jumps for step t. */
    method AddSynapticInput(t: int)
      requires |S.y| == StateSize(P.numReceptors)
      requires |B.spikeExc| == P.numReceptors && |B.spikeInh| == P.numReceptors
      modifies this
      ensures P == old(P) && V == old(V) && B == old(B)
      ensures S == old(S).(y := WithInput(old(S).y, B, t, P.numReceptors))
    {
      assert WithInput(S.y, B, t, 0) == S.y;
      var i := 0;
      while i < P.numReceptors
        invariant P == old(P) && V == old(V) && B == old(B)
        invariant 0 <= i <= P.numReceptors
        invariant S == old(S).(y := WithInput(old(S).y, B, t, i))
      {
        WithInputNext(old(S).y, B, t, i);
        var y := S.y;
        y := y[ExcSlot(i) := y[ExcSlot(i)] + Read(B.spikeExc[i], t)];
        y := y[InhSlot(i) := y[InhSlot(i)] + Read(B.spikeInh[i], t)];
        S := S.(y := y);
        i := i + 1;
      }
    }

    /** The refractory branch, the pending jumps, the spike decision and its bookkeeping. */
    method React(env: Environment, t: int) returns (spiked: bool)
      requires Fits(P, V, S) && P.deltaU != 0.0
      modifies this
      ensures P == old(P) && V == old(V) && B == old(B)
      ensures (S, spiked) == Reacted(old(S), P, V, env, t)
    {
      var s := S;
      spiked := false;
      if s.rRef == 0 {
        if s.addStcSfa {
          var stcSum, stcElems := JumpAll(s.stcElems, P.qStc);
          var sfaSum, sfaElems := JumpAll(s.sfaElems, P.qSfa);
          s := s.(addStcSfa := false, stcElems := stcElems, stc := s.stc + stcSum,
                  sfaElems := sfaElems, q := s.q + sfaSum);
          assert s == Jumped(S, P);
        }
        assert s == (if S.addStcSfa then Jumped(S, P) else S);
        var lambda := P.lambda0 * env.exp((s.y[V_M] - s.q) / P.deltaU);
        assert lambda == Intensity(s, P, env);
        if lambda > 0.0 && SpikeDrawn(lambda, V.h, env, t) {
          spiked := true;
          s := s.(addStcSfa := true, rRef := V.refractoryCounts);
        }
      } else {
        s := s.(rRef := s.rRef - 1, y := s.y[V_M := P.vReset]);
      }
      S := s;
    }

    /**
     * One iteration of the loop of update at lag, absolute step origin + lag:
     * decay, integrate (stopping on a solver failure), add the input, react,
     * and take the step's external current; the run from fromLag is one step
     * longer.
     */
    method UpdateStep(ghost n: Node, env: Environment, origin: int, fromLag: int, lag: int, spikes: seq<int>, log: seq<Record>)
      returns (status: int, spikes': seq<int>, log': seq<Record>)
      requires Calibrated(n) && fromLag <= lag
      requires P == n.P && V == n.V && B == n.B
      requires RunReaches(n, env, origin, fromLag, lag, RunResult(S, spikes, log, None))
      modifies this
      ensures P == old(P) && V == old(V) && B == old(B)
      ensures RunReaches(n, env, origin, fromLag, lag + 1,
        RunResult(S, spikes', log', if status == GSL_SUCCESS then None else Some(status)))
    {
      ghost var r := RunResult(S, spikes, log, None);
      ghost var m := Value();
      assert m == n.(S := r.s);
      var t := origin + lag;
      spikes', log' := spikes, log;
      DecayAdaptation();
      status := Integrate(env);
      if status != GSL_SUCCESS {
        assert Step(m, env, t) == SolverFailed(S, status);
        RunAdvance(n, env, origin, fromLag, lag, r, SolverFailed(S, status));
        return;
      }
      AddSynapticInput(t);
      var spiked := React(env, t);
      if spiked {
        spikes' := spikes + [origin + lag + 1];
      }
      S := S.(y0 := Read(B.currents, t));
      var record := Record(t, MembranePotential(S), AdaptiveThreshold(S));
      log' := log + [record];
      assert Step(m, env, t) == Stepped(S, spiked, record);
      RunAdvance(n, env, origin, fromLag, lag, r, Stepped(S, spiked, record));
    }

    /**
     * update(origin, from, to): run the steps from lag fromLag up to toLag,
     * collecting the spike times and the log, and stop at a solver failure.
     */
    method Update(origin: int, fromLag: int, toLag: int, env: Environment)
      returns (spikes: seq<int>, log: seq<Record>, failure: Option<int>)
      requires Calibrated(Value()) && 0 <= toLag && fromLag < toLag
      modifies this
      ensures P == old(P) && V == old(V) && B == old(B)
      ensures var r := Run(old(Value()), env, origin, fromLag, toLag);
        S == r.s && spikes == r.spikes && log == r.log && failure == r.failure
      ensures Calibrated(Value())
    {
      ghost var n := Value();
      spikes, log, failure := [], [], None;
      var lag := fromLag;
      while lag < toLag
        invariant fromLag <= lag <= toLag
        invariant P == n.P && V == n.V && B == n.B
        invariant RunReaches(n, env, origin, fromLag, lag, RunResult(S, spikes, log, None))
      {
        var status;
        status, spikes, log := UpdateStep(n, env, origin, fromLag, lag, spikes, log);
        if status != GSL_SUCCESS {
          failure := Some(status);
          RunStopsAtFailure(n, env, origin, fromLag, lag + 1, toLag);
          return;
        }
        lag := lag + 1;
      }
    }

    /** handle(SpikeEvent&): route the weighted spike into port rport's buffer for its delivery step. */
    method HandleSpike(rport: int, step: int, weight: real, multiplicity: nat)
      requires 1 <= rport <= P.numReceptors
      requires rport <= |B.spikeExc| && rport <= |B.spikeInh|
      modifies this
      ensures P == old(P) && S == old(S) && V == old(V)
      ensures B == DeliverSpike(old(B), rport, step, weight, multiplicity)
      ensures Valid() <==> old(Valid())
    {
      if weight > 0.0 {
        B := B.(spikeExc := B.spikeExc[rport - 1 := AddValue(B.spikeExc[rport - 1], step, weight * multiplicity as real)]);
      } else {
        B := B.(spikeInh := B.spikeInh[rport - 1 := AddValue(B.spikeInh[rport - 1], step, -weight * multiplicity as real)]);
      }
    }

    /** handle(CurrentEvent&): add the weighted current to the buffer for its delivery step. */
    method HandleCurrent(step: int, weight: real, current: real)
      modifies this
      ensures P == old(P) && S == old(S) && V == old(V)
      ensures B == DeliverCurrent(old(B), step, weight, current)
      ensures Valid() <==> old(Valid())
    {
      B := B.(currents := AddValue(B.currents, step, weight * current));
    }
  }
}
