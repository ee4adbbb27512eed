/**
 * The state of gif_cond_exp_multisynapse (struct State_): its constructors,
 * assignment, State_::set and the two recorded quantities.
 */
module NeuronState {
  import opened Wrappers
  import opened StateLayout
  import opened Parameters

  datatype State = State(
    y: seq<real>,            // state vector: V_M, then conductance pairs
    y0: real,                // piecewise constant external current
    q: real,                 // dynamic threshold E_sfa
    stc: real,               // spike-triggered current
    sfaElems: seq<real>,     // threshold adaptation accumulators
    stcElems: seq<real>,     // spike-triggered current accumulators
    rRef: int,               // remaining refractory steps
    initialized: bool,       // whether the accumulators were set up
    addStcSfa: bool)         // a spike's jumps are still to be added

  /** The State_(p) constructor: a one-element vector holding E_L, everything else zero. */
  function InitialState(p: Params): (s: State)
    ensures |s.y| == NUMBER_OF_FIXED_STATES_ELEMENTS && s.y[V_M] == p.eL
    ensures s.sfaElems == [] && s.stcElems == [] && s.rRef == 0
    ensures !s.initialized && !s.addStcSfa
  {
    State([p.eL], 0.0, 0.0, 0.0, [], [], 0, false, false)
  }

  /** The copy constructor State_(const State_&): copies everything except the accumulators, which start empty. */
  function CopyState(s: State): (r: State)
    ensures r.sfaElems == [] && r.stcElems == []
    ensures AssignState(s, r) == s
  {
    s.(sfaElems := [], stcElems := [])
  }

  /** State_::operator=: copies everything except the accumulators, which the target keeps. */
  function AssignState(target: State, source: State): (r: State)
    ensures r.sfaElems == target.sfaElems && r.stcElems == target.stcElems
    ensures r.(sfaElems := source.sfaElems, stcElems := source.stcElems) == source
  {
    source.(sfaElems := target.sfaElems, stcElems := target.stcElems)
  }

  /** State_::set: V_m and E_sfa from the dictionary, and the accumulators marked for re-initialisation. */
  function StateSet(s: State, d: Status): (r: State)
    requires |s.y| > V_M
    ensures |r.y| == |s.y| && !r.initialized
    ensures MembranePotential(r) == Updated(MembranePotential(s), d.vM)
    ensures AdaptiveThreshold(r) == Updated(AdaptiveThreshold(s), d.eSfa)
    ensures forall k :: V_M < k < |s.y| ==> r.y[k] == s.y[k]
    ensures d.vM.None? && d.eSfa.None? ==> r == s.(initialized := false)
    ensures r.(y := s.y, q := s.q, initialized := s.initialized) == s
  {
    s.(y := s.y[V_M := Updated(s.y[V_M], d.vM)], q := Updated(s.q, d.eSfa), initialized := false)
  }

  /** get_y_elem_<V_M>: the membrane potential, as the data logger reads it. */
  function MembranePotential(s: State): real
    requires |s.y| > V_M
  {
    s.y[V_M]
  }

  /** get_E_sfa_: the dynamic threshold, as the data logger reads it. */
  function AdaptiveThreshold(s: State): real
  {
    s.q
  }

  /**
   * What set_status does to the state through its temporary: the copy drops
   * the accumulators, State_::set writes V_m and E_sfa and clears initialized_,
   * and operator= brings back every field but the accumulators, which the
   * node keeps as they were.
   */
  lemma StatusCopyKeepsAccumulators(s: State, d: Status)
    requires |s.y| > V_M
    ensures var t := AssignState(s, StateSet(CopyState(s), d));
      && t.sfaElems == s.sfaElems && t.stcElems == s.stcElems
      && !t.initialized
      && |t.y| == |s.y| && t.y[V_M] == Updated(s.y[V_M], d.vM)
      && (forall k :: V_M < k < |s.y| ==> t.y[k] == s.y[k])
      && AdaptiveThreshold(t) == Updated(s.q, d.eSfa)
      && t.rRef == s.rRef && t.addStcSfa == s.addStcSfa && t.stc == s.stc && t.y0 == s.y0
  {
  }
}
