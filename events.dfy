/**
 * Connection checks (handles_test_event in gif_cond_exp_multisynapse.h) and
 * event routing into the input buffers (handle in gif_cond_exp_multisynapse.cpp).
 */
module Events {
  import opened Wrappers
  import opened Parameters
  import opened NodeModel

  /** The exceptions the receptor checks throw. */
  datatype PortError = IncompatibleReceptorType(receptorType: int) | UnknownReceptorType(receptorType: int)

  /**
   * handles_test_event(SpikeEvent&, receptor_type) on P_: a port in
   * [1, n_synapses] is accepted and locks in has_connections_.
   */
  function SpikePortTest(p: Params, receptorType: int): (r: Result<Params, PortError>)
    ensures r.Ok? <==> 1 <= receptorType <= p.numReceptors
    ensures r.Ok? ==> r.value.hasConnections && r.value.(hasConnections := p.hasConnections) == p
    ensures r.Err? ==> r.error == IncompatibleReceptorType(receptorType)
  {
    if receptorType <= 0 || receptorType > p.numReceptors then Err(IncompatibleReceptorType(receptorType))
    else Ok(p.(hasConnections := true))
  }

  /** handles_test_event(CurrentEvent&, receptor_type): only receptor 0 exists for currents. */
  function CurrentPortTest(receptorType: int): (r: Result<int, PortError>)
    ensures r.Ok? <==> receptorType == 0
    ensures r.Ok? ==> r.value == 0
    ensures r.Err? ==> r.error == UnknownReceptorType(receptorType)
  {
    if receptorType != 0 then Err(UnknownReceptorType(receptorType)) else Ok(0)
  }

  /**
   * handles_test_event(DataLoggingRequest&, receptor_type): only receptor 0;
   * the port returned is the one the data logger assigns, loggerPort.
   */
  function DataLoggingPortTest(receptorType: int, loggerPort: int): (r: Result<int, PortError>)
    ensures r.Ok? <==> receptorType == 0
    ensures r.Ok? ==> r.value == loggerPort
    ensures r.Err? ==> r.error == UnknownReceptorType(receptorType)
  {
    if receptorType != 0 then Err(UnknownReceptorType(receptorType)) else Ok(loggerPort)
  }

  /**
   * A spike port is accepted exactly when it names an existing receptor; the
   * accepted check changes only has_connections_, keeps the parameters valid,
   * and from then on no non-empty shorter taus_syn list is accepted.
   */
  lemma SpikePortLocksPorts(p: Params, receptorType: int, taus: seq<real>)
    requires ValidParams(p)
    ensures SpikePortTest(p, receptorType).Ok? <==> 1 <= receptorType <= p.numReceptors
    ensures SpikePortTest(p, receptorType).Err? ==>
      SpikePortTest(p, receptorType).error == IncompatibleReceptorType(receptorType)
    ensures SpikePortTest(p, receptorType).Ok? ==>
      var q := SpikePortTest(p, receptorType).value;
      && q.hasConnections && q == p.(hasConnections := true) && ValidParams(q)
      && (0 < |taus| < |p.tauSyn| ==> ParamsSet(q, EmptyStatus.(tausSyn := Some(taus))) == Err(PortsReduced))
  {
  }

  /** Receptor type 0 is rejected for spikes and, once accepted, a port has a buffer pair after calibrate. */
  lemma AcceptedSpikePortHasBuffers(n: Node, receptorType: int)
    requires Calibrated(n)
    ensures SpikePortTest(n.P, 0).Err?
    ensures SpikePortTest(n.P, receptorType).Ok? ==>
      1 <= receptorType <= |n.B.spikeExc| && receptorType <= |n.B.spikeInh|
  {
  }

  /**
   * handle(SpikeEvent&): a positive weight goes to the excitatory buffer of
   * port rport, any other weight, negated, to its inhibitory buffer, at the
   * step of delivery; the amount is weight times multiplicity.
   */
  function DeliverSpike(b: Buffers, rport: int, step: int, weight: real, multiplicity: nat): (r: Buffers)
    requires 1 <= rport <= |b.spikeExc| && rport <= |b.spikeInh|
    ensures |r.spikeExc| == |b.spikeExc| && |r.spikeInh| == |b.spikeInh| && r.currents == b.currents
    ensures weight > 0.0 ==> r.spikeInh == b.spikeInh
    ensures weight <= 0.0 ==> r.spikeExc == b.spikeExc
  {
    if weight > 0.0 then
      b.(spikeExc := b.spikeExc[rport - 1 := AddValue(b.spikeExc[rport - 1], step, weight * multiplicity as real)])
    else
      b.(spikeInh := b.spikeInh[rport - 1 := AddValue(b.spikeInh[rport - 1], step, -weight * multiplicity as real)])
  }

  /** handle(CurrentEvent&): the weighted current goes to the current buffer at the step of delivery. */
  function DeliverCurrent(b: Buffers, step: int, weight: real, current: real): (r: Buffers)
    ensures r.spikeExc == b.spikeExc && r.spikeInh == b.spikeInh
    ensures Read(r.currents, step) == Read(b.currents, step) + weight * current
  {
    b.(currents := AddValue(b.currents, step, weight * current))
  }

  /** Whether no spike buffer holds a negative conductance jump. */
  ghost predicate NonNegativeSpikeBuffers(b: Buffers)
  {
    && (forall i, k :: 0 <= i < |b.spikeExc| ==> Read(b.spikeExc[i], k) >= 0.0)
    && (forall i, k :: 0 <= i < |b.spikeInh| ==> Read(b.spikeInh[i], k) >= 0.0)
  }

  /**
   * A spike adds |weight| * multiplicity, a non-negative amount, to exactly
   * one slot: the excitatory one of its port when the weight is positive,
   * else the inhibitory one; every other slot and the current buffer stay.
   */
  lemma DeliverSpikeRoutesBySign(b: Buffers, rport: int, step: int, weight: real, multiplicity: nat)
    requires 1 <= rport <= |b.spikeExc| && rport <= |b.spikeInh|
    ensures var r := DeliverSpike(b, rport, step, weight, multiplicity);
      var amount := (if weight > 0.0 then weight else -weight) * multiplicity as real;
      && amount >= 0.0
      && |r.spikeExc| == |b.spikeExc| && |r.spikeInh| == |b.spikeInh| && r.currents == b.currents
      && (forall i, k :: 0 <= i < |b.spikeExc| ==>
            Read(r.spikeExc[i], k) ==
              Read(b.spikeExc[i], k) + (if i == rport - 1 && k == step && weight > 0.0 then amount else 0.0))
      && (forall i, k :: 0 <= i < |b.spikeInh| ==>
            Read(r.spikeInh[i], k) ==
              Read(b.spikeInh[i], k) + (if i == rport - 1 && k == step && weight <= 0.0 then amount else 0.0))
  {
    var amount := (if weight > 0.0 then weight else -weight) * multiplicity as real;
    assert amount >= 0.0 by {
      assert (if weight > 0.0 then weight else -weight) >= 0.0;
    }
  }

  /** Delivering spikes keeps every conductance jump in the buffers non-negative. */
  lemma DeliverSpikeKeepsNonNegative(b: Buffers, rport: int, step: int, weight: real, multiplicity: nat)
    requires 1 <= rport <= |b.spikeExc| && rport <= |b.spikeInh|
    requires NonNegativeSpikeBuffers(b)
    ensures NonNegativeSpikeBuffers(DeliverSpike(b, rport, step, weight, multiplicity))
  {
    DeliverSpikeRoutesBySign(b, rport, step, weight, multiplicity);
  }

  /** A current event adds weight * current at its step and touches nothing else. */
  lemma DeliverCurrentAdds(b: Buffers, step: int, weight: real, current: real)
    ensures var r := DeliverCurrent(b, step, weight, current);
      && r.spikeExc == b.spikeExc && r.spikeInh == b.spikeInh
      && Read(r.currents, step) == Read(b.currents, step) + weight * current
      && forall k :: k != step ==> Read(r.currents, k) == Read(b.currents, k)
  {
  }
}
