/**
 * calibrate of gif_cond_exp_multisynapse.cpp: map receptor ports, size the
 * state vector and buffers for the receptor count, take the resolution and
 * refractory step count, and set up the adaptation accumulators once.
 *
 * The resolution h and the step count of t_ref (Time::get_steps) come from
 * the kernel; exp stands for std::exp.
 */
module Calibration {
  import opened Wrappers
  import opened StateLayout
  import opened Parameters
  import opened NeuronState
  import opened NodeModel
  import opened StatusUpdate

  /** The decay factor exp(-h / tau) of every time constant in taus. */
  function Decays(exp: real -> real, h: real, taus: seq<real>): (r: seq<real>)
    requires AllPositive(taus)
    ensures |r| == |taus| && forall i :: 0 <= i < |taus| ==> r[i] == exp(-h / taus[i])
  {
    seq(|taus|, i requires 0 <= i < |taus| => exp(-h / taus[i]))
  }

  function Zeros(n: nat): (r: seq<real>)
    ensures |r| == n && forall i :: 0 <= i < n ==> r[i] == 0.0
  {
    seq(n, _ => 0.0)
  }

  /** Everything calibrate does before the accumulator block. */
  function Resized(n: Node, h: real, refractoryCounts: nat): (r: Node)
    ensures r.P == n.P.(receptorTypes := ReceptorTypes(n.P.numReceptors))
    ensures |r.S.y| == StateSize(n.P.numReceptors) && r.S.(y := n.S.y) == n.S
    ensures r.V == n.V.(h := h, refractoryCounts := refractoryCounts)
    ensures |r.B.spikeExc| == n.P.numReceptors && |r.B.spikeInh| == n.P.numReceptors
    ensures r.B.currents == n.B.currents
  {
    var k := n.P.numReceptors;
    Node(n.P.(receptorTypes := ReceptorTypes(k)),
         n.S.(y := Resize(n.S.y, StateSize(k), 0.0)),
         n.V.(h := h, refractoryCounts := refractoryCounts),
         n.B.(spikeExc := Resize(n.B.spikeExc, k, map[]), spikeInh := Resize(n.B.spikeInh, k, map[])))
  }

  /**
   * calibrate, with the accumulator block building the decay factors and the
   * zero accumulators afresh whenever initialized_ is false (see README,
   * Findings, for the source, which appends them to what is there).
   */
  function Calibration(n: Node, h: real, refractoryCounts: nat, exp: real -> real): (r: Node)
    requires Coherent(n)
    ensures Calibrated(r)
  {
    var m := Resized(n, h, refractoryCounts);
    if m.S.initialized then m
    else
      m.(V := m.V.(q33 := Decays(exp, h, m.P.tauSfa), q44 := Decays(exp, h, m.P.tauStc)),
         S := m.S.(sfaElems := Zeros(|m.P.tauSfa|), stcElems := Zeros(|m.P.tauStc|),
                   initialized := true))
  }

  /**
   * calibrate maps receptor i to port i + 1, gives the state vector the
   * length 1 + 2n keeping its existing entries (V_M among them) and zeroing
   * new conductances, gives every receptor a spike buffer pair keeping the
   * existing ones, and changes no parameter but the port list.
   */
  lemma CalibrationSizes(n: Node, h: real, refractoryCounts: nat, exp: real -> real)
    requires Coherent(n)
    ensures var r := Calibration(n, h, refractoryCounts, exp);
      var k := n.P.numReceptors;
      && (forall i :: 0 <= i < k ==> r.P.receptorTypes[i] == i + 1)
      && r.P == n.P.(receptorTypes := r.P.receptorTypes)
      && |r.S.y| == StateSize(k)
      && (forall j :: 0 <= j < |n.S.y| && j < StateSize(k) ==> r.S.y[j] == n.S.y[j])
      && MembranePotential(r.S) == MembranePotential(n.S)
      && (forall j :: |n.S.y| <= j < StateSize(k) ==> r.S.y[j] == 0.0)
      && |r.B.spikeExc| == k && |r.B.spikeInh| == k
      && (forall i :: 0 <= i < k && i < |n.B.spikeExc| ==> r.B.spikeExc[i] == n.B.spikeExc[i])
      && (forall i :: 0 <= i < k && i < |n.B.spikeInh| ==> r.B.spikeInh[i] == n.B.spikeInh[i])
      && r.B.currents == n.B.currents
      && r.V.h == h && r.V.refractoryCounts == refractoryCounts
      && r.S.rRef == n.S.rRef && r.S.addStcSfa == n.S.addStcSfa && r.S.q == n.S.q
      && r.S.stc == n.S.stc && r.S.y0 == n.S.y0
  {
  }

  /**
   * The accumulator block runs only when initialized_ is false: it then
   * yields one decay factor exp(-h / tau) and one zero accumulator per time
   * constant; otherwise the running accumulators and their factors stay.
   */
  lemma CalibrationAccumulators(n: Node, h: real, refractoryCounts: nat, exp: real -> real)
    requires Coherent(n)
    ensures var r := Calibration(n, h, refractoryCounts, exp);
      && r.S.initialized
      && (n.S.initialized ==>
            r.S.sfaElems == n.S.sfaElems && r.S.stcElems == n.S.stcElems
            && r.V.q33 == n.V.q33 && r.V.q44 == n.V.q44)
      && (!n.S.initialized ==>
            && (forall i :: 0 <= i < |n.P.tauSfa| ==> r.V.q33[i] == exp(-h / n.P.tauSfa[i]) && r.S.sfaElems[i] == 0.0)
            && (forall i :: 0 <= i < |n.P.tauStc| ==> r.V.q44[i] == exp(-h / n.P.tauStc[i]) && r.S.stcElems[i] == 0.0))
  {
  }

  /** A second calibrate with the same resolution changes nothing. */
  lemma CalibrationIdempotent(n: Node, h: real, refractoryCounts: nat, exp: real -> real)
    requires Coherent(n)
    ensures var r := Calibration(n, h, refractoryCounts, exp);
      Calibration(r, h, refractoryCounts, exp) == r
  {
    var r := Calibration(n, h, refractoryCounts, exp);
    ResizeToOwnLength(r.S.y, 0.0);
    ResizeToOwnLength(r.B.spikeExc, map[]);
    ResizeToOwnLength(r.B.spikeInh, map[]);
  }

  /**
   * calibrate as the source writes it: the accumulator block push_backs onto
   * Q33_, Q44_ and the accumulators without emptying them first.
   */
  function CalibrationAsWritten(n: Node, h: real, refractoryCounts: nat, exp: real -> real): (r: Node)
    requires Coherent(n)
    ensures r.S.initialized
    ensures |r.S.stcElems| == |n.S.stcElems| + (if n.S.initialized then 0 else |n.P.tauStc|)
    ensures |r.V.q44| == |n.V.q44| + (if n.S.initialized then 0 else |n.P.tauStc|)
    ensures n.S.initialized ==> r == Calibration(n, h, refractoryCounts, exp)
    ensures !n.S.initialized ==>
      && r.S.sfaElems == n.S.sfaElems + Zeros(|n.P.tauSfa|)
      && r.S.stcElems == n.S.stcElems + Zeros(|n.P.tauStc|)
      && r.V.q33 == n.V.q33 + Decays(exp, h, n.P.tauSfa)
      && r.V.q44 == n.V.q44 + Decays(exp, h, n.P.tauStc)
  {
    var m := Resized(n, h, refractoryCounts);
    if m.S.initialized then m
    else
      m.(V := m.V.(q33 := m.V.q33 + Decays(exp, h, m.P.tauSfa), q44 := m.V.q44 + Decays(exp, h, m.P.tauStc)),
         S := m.S.(sfaElems := m.S.sfaElems + Zeros(|m.P.tauSfa|),
                   stcElems := m.S.stcElems + Zeros(|m.P.tauStc|),
                   initialized := true))
  }

  /**
   * The corrected calibrate differs from the source's only where the source
   * appends to non-empty lists: on a node without accumulators or decay
   * factors, such as a freshly created one, the two agree.
   */
  lemma CalibrationAgreesWithoutAccumulators(n: Node, h: real, refractoryCounts: nat, exp: real -> real)
    requires Coherent(n)
    requires n.S.sfaElems == [] && n.S.stcElems == [] && n.V.q33 == [] && n.V.q44 == []
    ensures Calibration(n, h, refractoryCounts, exp) == CalibrationAsWritten(n, h, refractoryCounts, exp)
  {
  }

  /**
   * Create a neuron, give it one spike-triggered current, calibrate, call
   * set_status with an empty dictionary and calibrate again: as written, the
   * neuron then holds two stc accumulators for one q_stc jump, so the jump
   * loop of update reads q_stc_[1] past the end of the list; the corrected
   * calibrate leaves one accumulator per jump.
   */
  lemma RecalibrationDuplicatesAccumulators(exp: real -> real)
    ensures var p := DefaultParams();
      var n0 := Node(p, InitialState(p), InitialVariables, InitialBuffers);
      var d := EmptyStatus.(tauStc := Some([10.0]), qStc := Some([1.0]));
      var n1 := SetStatusEffect(n0, d, true).0;
      var n2 := CalibrationAsWritten(n1, 0.1, 40, exp);
      var n3 := SetStatusEffect(n2, EmptyStatus, true).0;
      var n4 := CalibrationAsWritten(n3, 0.1, 40, exp);
      && |n4.P.qStc| == 1
      && |n4.S.stcElems| == 2 && |n4.V.q44| == 2
      && !Calibrated(n4)
      && |Calibration(n3, 0.1, 40, exp).S.stcElems| == 1
  {
    var p := DefaultParams();
    var n0 := Node(p, InitialState(p), InitialVariables, InitialBuffers);
    var d := EmptyStatus.(tauStc := Some([10.0]), qStc := Some([1.0]));
    SetStatusAtomic(n0, d, true);
    var n1 := SetStatusEffect(n0, d, true).0;
    assert |n1.S.stcElems| == 0 && n1.P.tauStc == [10.0];
    var n2 := CalibrationAsWritten(n1, 0.1, 40, exp);
    assert |n2.S.stcElems| == 1;
    SetStatusAtomic(n2, EmptyStatus, true);
  }
}
