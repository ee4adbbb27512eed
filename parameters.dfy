/**
 * The independent parameters of gif_cond_exp_multisynapse (struct Parameters_)
 * and their validating update Parameters_::set.
 *
 * The source reads the status dictionary with updateValue, which overwrites a
 * field only when its key is present; here the dictionary is a Status record
 * whose entries are optional.
 */
module Parameters {
  import opened Wrappers

  datatype Params = Params(
    gL: real,                 // leak conductance g_L (nS)
    eL: real,                 // leak reversal potential E_L (mV)
    vReset: real,             // reset potential V_reset (mV)
    deltaU: real,             // stochasticity scale delta_u (mV)
    vTStar: real,             // threshold floor v_t_star (mV)
    lambda0: real,            // intensity at threshold lambda0 (Hz)
    tRef: real,               // refractory period t_ref (ms)
    cM: real,                 // membrane capacitance C_m (pF)
    tauStc: seq<real>,        // spike-triggered current time constants
    qStc: seq<real>,          // spike-triggered current jumps
    tauSfa: seq<real>,        // threshold adaptation time constants
    qSfa: seq<real>,          // threshold adaptation jumps
    tauSyn: seq<real>,        // synaptic time constant of every receptor
    iE: real,                 // constant external current I_e (pA)
    receptorTypes: seq<int>,  // receptor port numbers, filled by calibrate
    numReceptors: nat,
    eEx: real,                // excitatory reversal potential E_ex (mV)
    eIn: real,                // inhibitory reversal potential E_in (mV)
    hasConnections: bool)     // set once a spike connection was validated

  /** The default parameter set of the Parameters_ constructor. */
  function DefaultParams(): (p: Params)
    ensures ValidParams(p) && p.numReceptors == 0 && !p.hasConnections
  {
    Params(4.0, -70.0, -55.0, 1.5, -35.0, 10000.0, 4.0, 80.0,
           [], [], [], [], [], 0.0, [], 0, 0.0, -85.0, false)
  }

  /** A status dictionary: every key that may be absent. */
  datatype Status = Status(
    iE: Option<real>, eL: Option<real>, gL: Option<real>, cM: Option<real>,
    vReset: Option<real>, deltaU: Option<real>, vTStar: Option<real>,
    lambda0: Option<real>, tRef: Option<real>, eEx: Option<real>, eIn: Option<real>,
    tauSfa: Option<seq<real>>, qSfa: Option<seq<real>>,
    tauStc: Option<seq<real>>, qStc: Option<seq<real>>,
    tausSyn: Option<seq<real>>,
    vM: Option<real>, eSfa: Option<real>)  // the two state entries

  /** The dictionary with no entries. */
  const EmptyStatus: Status := Status(None, None, None, None, None, None, None,
                                      None, None, None, None, None, None, None,
                                      None, None, None, None)

  /** The BadProperty exceptions Parameters_::set throws, one per message. */
  datatype ParamError =
    | PortsReduced
    | SynTauNotPositive
    | SynTauIsMembraneTau
    | SfaSizeMismatch(tauSfaSize: nat, qSfaSize: nat)
    | StcSizeMismatch(tauStcSize: nat, qStcSize: nat)
    | LeakNotPositive
    | DeltaUNotPositive
    | CapacitanceNotPositive
    | RefractoryNegative
    | AdaptationTauNotPositive

  /** updateValue: the dictionary's entry when present, else the current value. */
  function Updated<T>(current: T, entry: Option<T>): (r: T)
    ensures entry.None? ==> r == current
    ensures entry.Some? ==> r == entry.value
  {
    match entry
    case Some(v) => v
    case None => current
  }

  /** The unconditional overwrites at the start of Parameters_::set (all but taus_syn). */
  function Merge(p: Params, d: Status): (r: Params)
    ensures r.tauSyn == p.tauSyn && r.numReceptors == p.numReceptors
    ensures r.receptorTypes == p.receptorTypes && r.hasConnections == p.hasConnections
    ensures d == EmptyStatus ==> r == p
  {
    p.(iE := Updated(p.iE, d.iE), eL := Updated(p.eL, d.eL), gL := Updated(p.gL, d.gL),
       cM := Updated(p.cM, d.cM), vReset := Updated(p.vReset, d.vReset),
       deltaU := Updated(p.deltaU, d.deltaU), vTStar := Updated(p.vTStar, d.vTStar),
       lambda0 := Updated(p.lambda0, d.lambda0), tRef := Updated(p.tRef, d.tRef),
       eEx := Updated(p.eEx, d.eEx), eIn := Updated(p.eIn, d.eIn),
       tauSfa := Updated(p.tauSfa, d.tauSfa), qSfa := Updated(p.qSfa, d.qSfa),
       tauStc := Updated(p.tauStc, d.tauStc), qStc := Updated(p.qStc, d.qStc))
  }

  /**
   * The membrane time constant c_m / g_L as the double division yields it. A
   * zero g_L gives an infinity or NaN, which no finite time constant equals;
   * that case is None.
   */
  function MembraneTau(cM: real, gL: real): (r: Option<real>)
    ensures r.Some? <==> gL != 0.0
  {
    if gL == 0.0 then None else Some(cM / gL)
  }

  predicate AllPositive(s: seq<real>)
  {
    forall i :: 0 <= i < |s| ==> s[i] > 0.0
  }

  /** The fault of one synaptic time constant, in the order the loop tests them. */
  function SynTauFault(tau: real, membraneTau: Option<real>): Option<ParamError>
  {
    if tau <= 0.0 then Some(SynTauNotPositive)
    else if membraneTau == Some(tau) then Some(SynTauIsMembraneTau)
    else None
  }

  /** The fault of the first synaptic time constant that has one. */
  function FirstSynTauFault(taus: seq<real>, membraneTau: Option<real>): Option<ParamError>
    decreases |taus|
  {
    if taus == [] then None
    else if SynTauFault(taus[0], membraneTau).Some? then SynTauFault(taus[0], membraneTau)
    else FirstSynTauFault(taus[1..], membraneTau)
  }

  /**
   * Whether the new list would shrink the ports of a connected neuron. The
   * source tests this inside the per-entry loop, so an empty list never trips it.
   */
  predicate ShrinksConnectedPorts(taus: seq<real>, current: Params)
  {
    |taus| > 0 && |taus| < |current.tauSyn| && current.hasConnections
  }

  /** The taus_syn block: the first fault of a supplied list, entry by entry. */
  function SynTausFault(taus: seq<real>, current: Params): Option<ParamError>
  {
    if ShrinksConnectedPorts(taus, current) then Some(PortsReduced)
    else FirstSynTauFault(taus, MembraneTau(current.cM, current.gL))
  }

  /** The checks after the taus_syn block, first failing one first. */
  function ValueFault(p: Params): Option<ParamError>
  {
    if |p.tauSfa| != |p.qSfa| then Some(SfaSizeMismatch(|p.tauSfa|, |p.qSfa|))
    else if |p.tauStc| != |p.qStc| then Some(StcSizeMismatch(|p.tauStc|, |p.qStc|))
    else if p.gL <= 0.0 then Some(LeakNotPositive)
    else if p.deltaU <= 0.0 then Some(DeltaUNotPositive)
    else if p.cM <= 0.0 then Some(CapacitanceNotPositive)
    else if p.tRef < 0.0 then Some(RefractoryNegative)
    else if !AllPositive(p.tauSfa) then Some(AdaptationTauNotPositive)
    else if !AllPositive(p.tauStc) then Some(AdaptationTauNotPositive)
    else None
  }

  /** What every parameter set the neuron holds satisfies. */
  predicate ValidParams(p: Params)
  {
    && |p.tauSfa| == |p.qSfa| && |p.tauStc| == |p.qStc|
    && p.gL > 0.0 && p.deltaU > 0.0 && p.cM > 0.0 && p.tRef >= 0.0
    && AllPositive(p.tauSfa) && AllPositive(p.tauStc) && AllPositive(p.tauSyn)
    && p.numReceptors == |p.tauSyn|
  }

  /** The parameter set a dictionary proposes: every supplied entry written over p. */
  function Proposed(p: Params, d: Status): Params
  {
    match d.tausSyn
    case Some(taus) => Merge(p, d).(tauSyn := taus, numReceptors := |taus|)
    case None => Merge(p, d)
  }

  /** The effect of Parameters_::set on a copy of p: the updated copy, or the exception. */
  function ParamsSet(p: Params, d: Status): (r: Result<Params, ParamError>)
    ensures r.Ok? ==> r.value == Proposed(p, d) && ValueFault(r.value).None?
    ensures r.Err? <==>
      || (d.tausSyn.Some? && SynTausFault(d.tausSyn.value, Merge(p, d)).Some?)
      || ValueFault(Proposed(p, d)).Some?
  {
    var m := Merge(p, d);
    var synFault := if d.tausSyn.Some? then SynTausFault(d.tausSyn.value, m) else None;
    if synFault.Some? then Err(synFault.value)
    else
      var q := Proposed(p, d);
      var fault := ValueFault(q);
      if fault.Some? then Err(fault.value) else Ok(q)
  }

  /**
   * The synaptic time constants pass the per-entry checks exactly when all are
   * positive and none equals the membrane time constant.
   */
  lemma {:induction false} FirstSynTauFaultNone(taus: seq<real>, membraneTau: Option<real>)
    ensures FirstSynTauFault(taus, membraneTau).None? <==>
      forall i :: 0 <= i < |taus| ==> taus[i] > 0.0 && membraneTau != Some(taus[i])
    decreases |taus|
  {
    if taus != [] {
      FirstSynTauFaultNone(taus[1..], membraneTau);
      assert forall i :: 1 <= i < |taus| ==> taus[i] == taus[1..][i - 1];
    }
  }

  /**
   * Parameters_::set accepts exactly when the proposed set is valid, a supplied
   * taus_syn list avoids the membrane time constant c_m / g_L (taken from the
   * same call), and the list does not shrink the ports of a connected neuron;
   * it then yields the proposed set. Requires a valid p because an absent
   * taus_syn keeps p's list unchecked.
   */
  lemma ParamsSetSpec(p: Params, d: Status)
    requires ValidParams(p)
    ensures ParamsSet(p, d).Ok? <==>
      && ValidParams(Proposed(p, d))
      && (d.tausSyn.Some? ==>
            && !ShrinksConnectedPorts(d.tausSyn.value, p)
            && forall i :: 0 <= i < |d.tausSyn.value| ==>
                 Some(d.tausSyn.value[i]) != MembraneTau(Proposed(p, d).cM, Proposed(p, d).gL))
    ensures ParamsSet(p, d).Ok? ==> ParamsSet(p, d).value == Proposed(p, d)
  {
    if d.tausSyn.Some? {
      FirstSynTauFaultNone(d.tausSyn.value, MembraneTau(Merge(p, d).cM, Merge(p, d).gL));
    }
  }

  /**
   * Every accepted update keeps the parameter invariant; the entries the
   * dictionary omits and the connection flag keep their values.
   */
  lemma ParamsSetKeepsValid(p: Params, d: Status)
    requires ValidParams(p)
    requires ParamsSet(p, d).Ok?
    ensures ValidParams(ParamsSet(p, d).value)
    ensures ParamsSet(p, d).value.hasConnections == p.hasConnections
    ensures ParamsSet(p, d).value.receptorTypes == p.receptorTypes
    ensures var q := ParamsSet(p, d).value;
      && (d.iE.None? ==> q.iE == p.iE) && (d.eL.None? ==> q.eL == p.eL)
      && (d.gL.None? ==> q.gL == p.gL) && (d.cM.None? ==> q.cM == p.cM)
      && (d.vReset.None? ==> q.vReset == p.vReset) && (d.deltaU.None? ==> q.deltaU == p.deltaU)
      && (d.vTStar.None? ==> q.vTStar == p.vTStar) && (d.lambda0.None? ==> q.lambda0 == p.lambda0)
      && (d.tRef.None? ==> q.tRef == p.tRef) && (d.eEx.None? ==> q.eEx == p.eEx)
      && (d.eIn.None? ==> q.eIn == p.eIn)
      && (d.tauSfa.None? ==> q.tauSfa == p.tauSfa) && (d.qSfa.None? ==> q.qSfa == p.qSfa)
      && (d.tauStc.None? ==> q.tauStc == p.tauStc) && (d.qStc.None? ==> q.qStc == p.qStc)
      && (d.tausSyn.None? ==> q.tauSyn == p.tauSyn && q.numReceptors == p.numReceptors)
  {
    ParamsSetSpec(p, d);
  }

  /**
   * Every entry an accepted dictionary supplies is installed; a supplied
   * taus_syn list also fixes the receptor count to its length.
   */
  lemma ParamsSetInstallsSupplied(p: Params, d: Status)
    requires ParamsSet(p, d).Ok?
    ensures var q := ParamsSet(p, d).value;
      && (d.iE.Some? ==> q.iE == d.iE.value) && (d.eL.Some? ==> q.eL == d.eL.value)
      && (d.gL.Some? ==> q.gL == d.gL.value) && (d.cM.Some? ==> q.cM == d.cM.value)
      && (d.vReset.Some? ==> q.vReset == d.vReset.value) && (d.deltaU.Some? ==> q.deltaU == d.deltaU.value)
      && (d.vTStar.Some? ==> q.vTStar == d.vTStar.value) && (d.lambda0.Some? ==> q.lambda0 == d.lambda0.value)
      && (d.tRef.Some? ==> q.tRef == d.tRef.value) && (d.eEx.Some? ==> q.eEx == d.eEx.value)
      && (d.eIn.Some? ==> q.eIn == d.eIn.value)
      && (d.tauSfa.Some? ==> q.tauSfa == d.tauSfa.value) && (d.qSfa.Some? ==> q.qSfa == d.qSfa.value)
      && (d.tauStc.Some? ==> q.tauStc == d.tauStc.value) && (d.qStc.Some? ==> q.qStc == d.qStc.value)
      && (d.tausSyn.Some? ==> q.tauSyn == d.tausSyn.value && q.numReceptors == |d.tausSyn.value|)
  {
  }

  /**
   * A supplied taus_syn entry equal to c_m / g_L is rejected, whatever else
   * the dictionary holds, unless an earlier entry of the list is non-positive.
   */
  lemma {:induction false} MembraneTauRejected(p: Params, d: Status, i: nat)
    requires d.tausSyn.Some? && i < |d.tausSyn.value|
    requires Some(d.tausSyn.value[i]) == MembraneTau(Merge(p, d).cM, Merge(p, d).gL)
    ensures ParamsSet(p, d).Err?
  {
    var taus := d.tausSyn.value;
    FirstSynTauFaultNone(taus, MembraneTau(Merge(p, d).cM, Merge(p, d).gL));
  }

  /** A connected neuron rejects a non-empty shorter list of synaptic time constants. */
  lemma ConnectedPortsCannotShrink(p: Params, d: Status)
    requires p.hasConnections && d.tausSyn.Some?
    requires 0 < |d.tausSyn.value| < |p.tauSyn|
    ensures ParamsSet(p, d) == Err(PortsReduced)
  {
  }

  /**
   * The shrink check sits inside the per-entry loop: an empty list passes it
   * on a connected neuron and removes every port.
   */
  lemma EmptySynListRemovesPorts(p: Params)
    requires ValidParams(p) && p.hasConnections
    ensures ParamsSet(p, EmptyStatus.(tausSyn := Some([]))) == Ok(p.(tauSyn := [], numReceptors := 0))
  {
  }

  /**
   * Mismatched adaptation lists are rejected with both of their sizes,
   * whenever a supplied taus_syn list passes its own checks.
   */
  lemma SfaSizeMismatchRejected(p: Params, d: Status)
    requires d.tausSyn.Some? ==> SynTausFault(d.tausSyn.value, Merge(p, d)).None?
    requires |Merge(p, d).tauSfa| != |Merge(p, d).qSfa|
    ensures ParamsSet(p, d) == Err(SfaSizeMismatch(|Merge(p, d).tauSfa|, |Merge(p, d).qSfa|))
  {
  }

  /**
   * Mismatched spike-triggered current lists are rejected with both sizes,
   * whenever a supplied taus_syn list passes its own checks.
   */
  lemma StcSizeMismatchRejected(p: Params, d: Status)
    requires d.tausSyn.Some? ==> SynTausFault(d.tausSyn.value, Merge(p, d)).None?
    requires |Merge(p, d).tauSfa| == |Merge(p, d).qSfa|
    requires |Merge(p, d).tauStc| != |Merge(p, d).qStc|
    ensures ParamsSet(p, d) == Err(StcSizeMismatch(|Merge(p, d).tauStc|, |Merge(p, d).qStc|))
  {
  }

  /** With the defaults (c_m = 80, g_L = 4), taus_syn = [20.0] is rejected. */
  lemma DefaultMembraneTauScenario()
    ensures ParamsSet(DefaultParams(), EmptyStatus.(tausSyn := Some([20.0]))) == Err(SynTauIsMembraneTau)
  {
  }

  /** tau_sfa of length 2 against q_sfa of length 1 is rejected naming both lengths. */
  lemma SfaLengthScenario()
    ensures ParamsSet(DefaultParams(), EmptyStatus.(tauSfa := Some([10.0, 100.0]), qSfa := Some([5.0])))
            == Err(SfaSizeMismatch(2, 1))
  {
  }

  /**
   * Parameters_::set on a copy: overwrite the supplied entries, then validate
   * in the source's order, the list entries one by one.
   */
  method SetParameters(p: Params, d: Status) returns (r: Result<Params, ParamError>)
    ensures r == ParamsSet(p, d)
  {
    var q := Merge(p, d);
    if d.tausSyn.Some? {
      var taus := d.tausSyn.value;
      var membraneTau := MembraneTau(q.cM, q.gL);
      var i := 0;
      while i < |taus|
        invariant 0 <= i <= |taus|
        invariant FirstSynTauFault(taus, membraneTau) == FirstSynTauFault(taus[i..], membraneTau)
        invariant i > 0 ==> !ShrinksConnectedPorts(taus, q)
      {
        if |taus| < |q.tauSyn| && q.hasConnections {
          return Err(PortsReduced);
        }
        if taus[i] <= 0.0 {
          return Err(SynTauNotPositive);
        }
        if membraneTau == Some(taus[i]) {
          return Err(SynTauIsMembraneTau);
        }
        assert taus[i..][1..] == taus[i + 1..];
        i := i + 1;
      }
      q := q.(tauSyn := taus, numReceptors := |taus|);
    }
    if |q.tauSfa| != |q.qSfa| {
      return Err(SfaSizeMismatch(|q.tauSfa|, |q.qSfa|));
    }
    if |q.tauStc| != |q.qStc| {
      return Err(StcSizeMismatch(|q.tauStc|, |q.qStc|));
    }
    if q.gL <= 0.0 {
      return Err(LeakNotPositive);
    }
    if q.deltaU <= 0.0 {
      return Err(DeltaUNotPositive);
    }
    if q.cM <= 0.0 {
      return Err(CapacitanceNotPositive);
    }
    if q.tRef < 0.0 {
      return Err(RefractoryNegative);
    }
    var j := 0;
    while j < |q.tauSfa|
      invariant 0 <= j <= |q.tauSfa|
      invariant forall k :: 0 <= k < j ==> q.tauSfa[k] > 0.0
    {
      if q.tauSfa[j] <= 0.0 {
        return Err(AdaptationTauNotPositive);
      }
      j := j + 1;
    }
    j := 0;
    while j < |q.tauStc|
      invariant 0 <= j <= |q.tauStc|
      invariant forall k :: 0 <= k < j ==> q.tauStc[k] > 0.0
    {
      if q.tauStc[j] <= 0.0 {
        return Err(AdaptationTauNotPositive);
      }
      j := j + 1;
    }
    r := Ok(q);
  }
}
