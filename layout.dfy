/**
 * Layout of the neuron's state vector y_ (the State_::StateVecElems enum of
 * gif_cond_exp_multisynapse.h): the membrane potential at index V_M, then for
 * every receptor i its excitatory conductance at G_EXC + 2i and its inhibitory
 * conductance at G_INH + 2i.
 */
module StateLayout {

  const V_M: nat := 0
  const G_EXC: nat := 1
  const G_INH: nat := 2
  const STATE_VEC_SIZE: nat := 3

  /** Number of state elements that do not belong to a receptor (just V_M). */
  const NUMBER_OF_FIXED_STATES_ELEMENTS: nat := 1

  /** Length of the state vector for n receptors: 1 + (STATE_VEC_SIZE - 1) * n. */
  function StateSize(n: nat): (size: nat)
    ensures size == NUMBER_OF_FIXED_STATES_ELEMENTS + 2 * n
  {
    1 + (STATE_VEC_SIZE - 1) * n
  }

  /** The receptor a conductance slot k >= 1 belongs to. */
  function ReceptorOf(k: nat): nat
    requires k >= 1
  {
    (k - 1) / 2
  }

  /** Whether conductance slot k >= 1 is an excitatory one (else inhibitory). */
  predicate IsExcitatorySlot(k: nat)
    requires k >= 1
  {
    k % 2 == 1
  }

  /** Index of the excitatory conductance of receptor i. */
  function ExcSlot(i: nat): (k: nat)
    ensures k != V_M && IsExcitatorySlot(k) && ReceptorOf(k) == i
    ensures k < StateSize(i + 1)
  {
    G_EXC + (STATE_VEC_SIZE - 1) * i
  }

  /** Index of the inhibitory conductance of receptor i. */
  function InhSlot(i: nat): (k: nat)
    ensures k != V_M && !IsExcitatorySlot(k) && ReceptorOf(k) == i
    ensures k < StateSize(i + 1)
  {
    G_INH + (STATE_VEC_SIZE - 1) * i
  }

  /**
   * The receptor slots tile the state vector: for n receptors, every index
   * other than V_M below StateSize(n) is exactly one receptor's excitatory or
   * inhibitory conductance, and every receptor's two slots lie in that range.
   */
  lemma SlotsTileStateVector(n: nat, k: nat)
    ensures 1 <= k < StateSize(n) ==>
      ReceptorOf(k) < n &&
      k == (if IsExcitatorySlot(k) then ExcSlot(ReceptorOf(k)) else InhSlot(ReceptorOf(k)))
    ensures k < n ==> 0 < ExcSlot(k) < StateSize(n) && 0 < InhSlot(k) < StateSize(n)
  {
  }

  /** Distinct receptors never share a slot, and no receptor's two slots coincide. */
  lemma SlotsDistinct(i: nat, j: nat)
    ensures ExcSlot(i) != InhSlot(j)
    ensures i != j ==> ExcSlot(i) != ExcSlot(j) && InhSlot(i) != InhSlot(j)
  {
  }
}
