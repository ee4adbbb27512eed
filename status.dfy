/**
 * set_status of gif_cond_exp_multisynapse.h: validate on temporaries, then
 * swap them in, so a rejected dictionary leaves the node as it was.
 */
module StatusUpdate {
  import opened Wrappers
  import opened StateLayout
  import opened Parameters
  import opened NeuronState
  import opened NodeModel

  /** Why set_status throws: a parameter fault, or the archiving base class rejecting the dictionary. */
  datatype StatusError = BadParameter(fault: ParamError) | ArchivingRejected

  /**
   * The node after set_status and the exception thrown, if any. Whether
   * Archiving_Node::set_status accepts the dictionary is code outside this
   * model and comes in as archivingAccepts.
   */
  function SetStatusEffect(n: Node, d: Status, archivingAccepts: bool): (r: (Node, Option<StatusError>))
    requires |n.S.y| > V_M
    ensures r.1.Some? ==> r.0 == n
    ensures r.1.None? <==> ParamsSet(n.P, d).Ok? && archivingAccepts
    ensures r.1.None? ==> r.0.V == n.V && r.0.B == n.B
  {
    var ptmp := ParamsSet(n.P, d);
    if ptmp.Err? then (n, Some(BadParameter(ptmp.error)))
    else
      var stmp := StateSet(CopyState(n.S), d);
      if !archivingAccepts then (n, Some(ArchivingRejected))
      else (n.(P := ptmp.value, S := AssignState(n.S, stmp)), None)
  }

  /**
   * set_status is atomic: when it throws the node is unchanged; it succeeds
   * exactly when Parameters_::set and the base class accept, and then P_ is
   * the validated set, the accumulators survive untouched but are marked for
   * re-initialisation, V_ and B_ are untouched, and the node stays coherent.
   */
  lemma SetStatusAtomic(n: Node, d: Status, archivingAccepts: bool)
    requires Coherent(n)
    ensures var m := SetStatusEffect(n, d, archivingAccepts).0;
            var e := SetStatusEffect(n, d, archivingAccepts).1;
      && (e.Some? ==> m == n)
      && (e.None? <==> ParamsSet(n.P, d).Ok? && archivingAccepts)
      && (ParamsSet(n.P, d).Err? ==> e == Some(BadParameter(ParamsSet(n.P, d).error)))
      && (e.None? ==>
            && m.P == ParamsSet(n.P, d).value
            && m.V == n.V && m.B == n.B
            && m.S == AssignState(n.S, StateSet(CopyState(n.S), d))
            && m.S.rRef == n.S.rRef && m.S.stc == n.S.stc && m.S.y0 == n.S.y0
            && m.S.addStcSfa == n.S.addStcSfa
            && m.S.sfaElems == n.S.sfaElems && m.S.stcElems == n.S.stcElems
            && !m.S.initialized
            && MembranePotential(m.S) == Updated(MembranePotential(n.S), d.vM)
            && AdaptiveThreshold(m.S) == Updated(AdaptiveThreshold(n.S), d.eSfa))
      && Coherent(m)
  {
    if ParamsSet(n.P, d).Ok? {
      ParamsSetKeepsValid(n.P, d);
      StatusCopyKeepsAccumulators(n.S, d);
    }
  }
}
