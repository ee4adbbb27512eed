/**
 * The four parts of a gif_cond_exp_multisynapse node as values: parameters
 * P_, state S_, internal variables V_ and input buffers B_, with the
 * invariants that hold between them.
 */
module NodeModel {
  import opened StateLayout
  import opened Parameters
  import opened NeuronState

  /** Internal variables (struct Variables_) that calibrate derives. */
  datatype Variables = Variables(
    q33: seq<real>,            // decay factor of every sfa accumulator
    q44: seq<real>,            // decay factor of every stc accumulator
    h: real,                   // simulation resolution in ms
    refractoryCounts: nat)     // t_ref in simulation steps

  /** Variables_ before the first calibrate. */
  const InitialVariables: Variables := Variables([], [], 0.0, 0)

  /**
   * Input buffers (struct Buffers_): one excitatory and one inhibitory spike
   * buffer per receptor and one current buffer, each a map from the absolute
   * simulation step of delivery to the summed input for that step.
   */
  datatype Buffers = Buffers(
    spikeExc: seq<map<int, real>>,
    spikeInh: seq<map<int, real>>,
    currents: map<int, real>)

  /** Buffers_ after construction: no receptor buffers yet. */
  const InitialBuffers: Buffers := Buffers([], [], map[])

  datatype Node = Node(P: Params, S: State, V: Variables, B: Buffers)

  /** RingBuffer::get_value: the summed input for a step, zero when nothing arrived. */
  function Read(buffer: map<int, real>, step: int): real
  {
    if step in buffer then buffer[step] else 0.0
  }

  /** RingBuffer::add_value: accumulate a value into a step's slot. */
  function AddValue(buffer: map<int, real>, step: int, v: real): (r: map<int, real>)
    ensures Read(r, step) == Read(buffer, step) + v
    ensures forall k :: k != step ==> Read(r, k) == Read(buffer, k)
  {
    buffer[step := Read(buffer, step) + v]
  }

  /** std::vector::resize: keep the first n elements, pad with fill. */
  function Resize<T>(s: seq<T>, n: nat, fill: T): (r: seq<T>)
    ensures |r| == n
    ensures forall i :: 0 <= i < n && i < |s| ==> r[i] == s[i]
    ensures forall i :: |s| <= i < n ==> r[i] == fill
  {
    if n <= |s| then s[..n] else s + seq(n - |s|, _ => fill)
  }

  /** Resizing to the length a sequence already has changes nothing. */
  lemma ResizeToOwnLength<T>(s: seq<T>, fill: T)
    ensures Resize(s, |s|, fill) == s
  {
  }

  /** Whether the accumulators and their decay factors match the adaptation lists of P_. */
  predicate AccumulatorsMatch(p: Params, s: State, v: Variables)
  {
    && |s.sfaElems| == |v.q33| == |p.qSfa| == |p.tauSfa|
    && |s.stcElems| == |v.q44| == |p.qStc| == |p.tauStc|
  }

  /**
   * The invariant of every node: its parameters are valid, the state vector
   * holds at least V_M, the refractory counter is not negative, and
   * accumulators marked as initialized match the parameters.
   */
  predicate Coherent(n: Node)
  {
    && ValidParams(n.P)
    && |n.S.y| >= NUMBER_OF_FIXED_STATES_ELEMENTS
    && n.S.rRef >= 0
    && (n.S.initialized ==> AccumulatorsMatch(n.P, n.S, n.V))
  }

  /** A state that an update step can run on, for the given parameters and variables. */
  predicate Fits(p: Params, v: Variables, s: State)
  {
    && |s.y| == StateSize(p.numReceptors)
    && s.rRef >= 0
    && s.initialized
    && AccumulatorsMatch(p, s, v)
  }

  /** The receptor port numbers 1..n that calibrate stores. */
  function ReceptorTypes(n: nat): (r: seq<int>)
    ensures |r| == n && forall i :: 0 <= i < n ==> r[i] == i + 1
  {
    seq(n, i => i + 1)
  }

  /** A node as calibrate leaves it: everything sized for the current receptor count. */
  predicate Calibrated(n: Node)
  {
    && Coherent(n)
    && Fits(n.P, n.V, n.S)
    && n.P.receptorTypes == ReceptorTypes(n.P.numReceptors)
    && |n.B.spikeExc| == n.P.numReceptors
    && |n.B.spikeInh| == n.P.numReceptors
  }
}
