/** A neuron: the record the network stores by value in its neuron vector. */
module Neurons {

  /** Structural address of a neuron: domain, group and index. */
  datatype NeuronId = NeuronId(domain: int, group: int, index: int)

  /** The neuron's fields, in declaration order. `energy` is carried but
      nothing in the core reads or writes it after construction. */
  datatype Neuron = Neuron(
    id: NeuronId,
    activity: real,
    confidence: real,
    energy: real,
    firedLastCycle: bool,
    totalInput: real)
  {
    /** The firing decision: strictly more input than the threshold, so an
      input equal to it does not fire and a neuron without input does not
      fire at a non-negative threshold. */
    predicate ShouldFire(threshold: real)
      ensures totalInput == threshold ==> !ShouldFire(threshold)
      ensures totalInput <= 0.0 <= threshold ==> !ShouldFire(threshold)
    {
      totalInput > threshold
    }
  }

  /** A neuron as constructed from its id: every other field has its
      in-class default, so a fresh neuron has not fired and would not fire
      at any non-negative threshold. */
  function NewNeuron(id: NeuronId): (n: Neuron)
    ensures n.id == id
    ensures n.activity == 0.0 && n.confidence == 0.0 && n.energy == 1.0
    ensures !n.firedLastCycle && n.totalInput == 0.0
    ensures forall t :: t >= 0.0 ==> !n.ShouldFire(t)
  {
    Neuron(id, 0.0, 0.0, 1.0, false, 0.0)
  }

  /** The inequality is strict: an input equal to the threshold does not
      fire, and a neuron that fires at some threshold fires at every lower
      one. The decision depends on `totalInput` alone. */
  lemma FiringIsStrict(n: Neuron, t: real, lower: real)
    ensures n.ShouldFire(t) <==> n.totalInput > t
    ensures n.totalInput == t ==> !n.ShouldFire(t)
    ensures lower <= t && n.ShouldFire(t) ==> n.ShouldFire(lower)
    ensures forall m: Neuron :: m.totalInput == n.totalInput ==> m.ShouldFire(t) == n.ShouldFire(t)
  {
  }
}
