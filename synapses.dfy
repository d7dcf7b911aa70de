/** A synapse: a directed edge between two positions of the neuron vector,
    with a long-term trust value and a short-term eligibility trace. */
module Synapses {

  /** Trust a new synapse starts with. */
  const InitialTrust: real := 0.6

  datatype Synapse = Synapse(source: int, target: int, trust: real, trace: real)

  /** Trust and trace both within [0, 1]: every operation of the network
      keeps this for every synapse. */
  predicate InUnitRange(s: Synapse)
  {
    0.0 <= s.trust <= 1.0 && 0.0 <= s.trace <= 1.0
  }

  /** A synapse as constructed from its two indices: the default trust,
      no eligibility yet, and so within the unit range. */
  function NewSynapse(source: int, target: int): (s: Synapse)
    ensures s.source == source && s.target == target
    ensures s.trust == InitialTrust && s.trace == 0.0
    ensures InUnitRange(s)
  {
    Synapse(source, target, InitialTrust, 0.0)
  }
}
