/** The network: a vector of neurons, a vector of synapses that refer to
    neurons by position, and one homeostasis controller. It runs the
    per-cycle update and the reward-driven trust update. */
module Networks {
  import opened Numerics
  import opened Neurons
  import opened Synapses
  import opened Homeostasis
  import HomeostasisProperties

  /** Learning rate of the reward pass. */
  const LearningRate: real := 0.1
  /** Multiplicative trust decay applied to every rewarded synapse. */
  const TrustDecay: real := 0.02
  /** Per-cycle decay factor of every eligibility trace. */
  const TraceDecay: real := 0.5
  /** Source activity above which a synapse into a firing neuron is tagged. */
  const TagActivityGate: real := 0.1
  /** Trace above which a synapse takes part in the reward pass. */
  const RewardTraceGate: real := 0.1

  /** A lookup that either yields a value or reports an index out of range. */
  datatype Result<T> = Ok(value: T) | OutOfRange

  /** Every synapse refers to two existing neuron positions. The network
      never checks this; its cycle and reward passes depend on it. */
  predicate EdgesIn(ss: seq<Synapse>, n: int)
  {
    forall k :: 0 <= k < |ss| ==> 0 <= ss[k].source < n && 0 <= ss[k].target < n
  }

  /** The index check of the two neuron accessors as written: an upper
      bound only, so a negative index passes it. */
  predicate GuardAsWritten(idx: int, size: int)
  {
    idx < size
  }

  /** The index check the accessors need: a position of the vector. The
      accessors below use this one. */
  predicate IndexInRange(idx: int, size: int)
  {
    0 <= idx < size
  }

  /** Every synapse whose trace passes the reward gate refers to two
      existing neuron positions: the reward pass reads the endpoints of
      those synapses only. Implied by `EdgesIn`. */
  predicate RewardEdgesIn(ss: seq<Synapse>, n: int)
  {
    forall k :: 0 <= k < |ss| && RewardTraceGate < ss[k].trace ==> 0 <= ss[k].source < n && 0 <= ss[k].target < n
  }

  predicate AllInUnitRange(ss: seq<Synapse>)
  {
    forall k :: 0 <= k < |ss| ==> InUnitRange(ss[k])
  }

  /** Number of neurons whose firing flag is set; never more than there
      are neurons. */
  function FiredCount(ns: seq<Neuron>): (c: nat)
    ensures c <= |ns|
  {
    if ns == [] then 0
    else FiredCount(ns[..|ns| - 1]) + (if ns[|ns| - 1].firedLastCycle then 1 else 0)
  }

  /** A source neuron's effective signal: its activity times its
      confidence. */
  function EffectiveSignal(n: Neuron): real
  {
    n.activity * n.confidence
  }

  /** What synapse `s` delivers to its target: the source's effective
      signal weighted by the synapse's trust. */
  function Signal(ns: seq<Neuron>, s: Synapse): real
    requires 0 <= s.source < |ns|
  {
    Weighted(EffectiveSignal(ns[s.source]), s.trust)
  }

  function Weighted(signal: real, trust: real): real
  {
    signal * trust
  }

  /** Whether some synapse of `ss` targets neuron `j`. */
  predicate Targeted(ss: seq<Synapse>, j: int)
  {
    exists k :: 0 <= k < |ss| && ss[k].target == j
  }

  /** Total input of neuron `j`: the signals of the synapses that target
      it, accumulated in synapse order. */
  function IncomingInput(ns: seq<Neuron>, ss: seq<Synapse>, j: int): (r: real)
    requires EdgesIn(ss, |ns|)
  {
    if ss == [] then 0.0
    else
      var last := ss[|ss| - 1];
      IncomingInput(ns, ss[..|ss| - 1], j) + (if last.target == j then Signal(ns, last) else 0.0)
  }

  /** A neuron after the reset and the propagation of a cycle: its
      accumulated input is `input` and its firing flag is cleared. */
  function Received(n: Neuron, input: real): Neuron
  {
    n.(totalInput := input, firedLastCycle := false)
  }

  /** The firing step for one neuron: a positive input sets the confidence,
      capped at 1, and an input above `theta` raises the firing flag. */
  function Derive(n: Neuron, theta: real): (r: Neuron)
    ensures r.id == n.id && r.activity == n.activity && r.energy == n.energy
    ensures r.totalInput == n.totalInput
    ensures r.confidence == if n.totalInput > 0.0 then Min(1.0, n.totalInput) else n.confidence
    ensures r.firedLastCycle <==> n.firedLastCycle || n.totalInput > theta
  {
    var confident := if n.totalInput > 0.0 then n.(confidence := Min(1.0, n.totalInput)) else n;
    if confident.ShouldFire(theta) then confident.(firedLastCycle := true) else confident
  }

  /** The neuron vector after a cycle at threshold `theta`, every input
      computed from the neurons as they were before the cycle. */
  function CycledNeurons(ns: seq<Neuron>, ss: seq<Synapse>, theta: real): (r: seq<Neuron>)
    requires EdgesIn(ss, |ns|)
    ensures |r| == |ns|
  {
    seq(|ns|, j requires 0 <= j < |ns| => Derive(Received(ns[j], IncomingInput(ns, ss, j)), theta))
  }

  /** Whether a synapse is tagged as causal in the cycle that produced
      `ns`: its source was active enough and its target fired. */
  predicate Causal(ns: seq<Neuron>, s: Synapse)
    requires 0 <= s.source < |ns| && 0 <= s.target < |ns|
  {
    ns[s.source].activity > TagActivityGate && ns[s.target].firedLastCycle
  }

  /** A synapse's trace after a cycle: halved, then reset to 1 when the
      synapse was causal. */
  function Tag(ns: seq<Neuron>, s: Synapse): (r: Synapse)
    requires 0 <= s.source < |ns| && 0 <= s.target < |ns|
    ensures r.source == s.source && r.target == s.target && r.trust == s.trust
    ensures r.trace == 1.0 || r.trace == s.trace / 2.0
    ensures Causal(ns, s) ==> r.trace == 1.0
    ensures 0.0 <= s.trace <= 1.0 ==> 0.0 <= r.trace <= 1.0
  {
    var decayed := s.(trace := s.trace * TraceDecay);
    if Causal(ns, s) then decayed.(trace := 1.0) else decayed
  }

  /** The synapse vector after a cycle that left the neurons as `ns`. */
  function CycledSynapses(ns: seq<Neuron>, ss: seq<Synapse>): (r: seq<Synapse>)
    requires EdgesIn(ss, |ns|)
    ensures |r| == |ss|
  {
    seq(|ss|, k requires 0 <= k < |ss| => Tag(ns, ss[k]))
  }

  lemma EdgesInPrefix(ss: seq<Synapse>, n: int, k: nat)
    requires EdgesIn(ss, n) && k <= |ss|
    ensures EdgesIn(ss[..k], n)
  {
  }

  /** Accumulating one more synapse adds its signal to its own target and
      nothing to any other neuron. */
  lemma IncomingInputStep(ns: seq<Neuron>, ss: seq<Synapse>, k: nat, j: int)
    requires EdgesIn(ss, |ns|) && k < |ss|
    ensures EdgesIn(ss[..k], |ns|) && EdgesIn(ss[..k + 1], |ns|)
    ensures IncomingInput(ns, ss[..k + 1], j)
         == IncomingInput(ns, ss[..k], j) + (if ss[k].target == j then Signal(ns, ss[k]) else 0.0)
  {
    EdgesInPrefix(ss, |ns|, k);
    EdgesInPrefix(ss, |ns|, k + 1);
    assert ss[..k + 1][..k] == ss[..k];
  }

  /** The input a neuron receives depends only on the sources' activity
      and confidence and on the synapses' endpoints and trust: neither the
      neurons' scratch fields nor the traces matter. */
  lemma {:induction false} IncomingInputAgrees(ns: seq<Neuron>, ms: seq<Neuron>, ss: seq<Synapse>, tt: seq<Synapse>, j: int)
    requires |ns| == |ms| && |ss| == |tt|
    requires EdgesIn(ss, |ns|) && EdgesIn(tt, |ms|)
    requires forall i :: 0 <= i < |ns| ==> ns[i].activity == ms[i].activity && ns[i].confidence == ms[i].confidence
    requires forall k :: 0 <= k < |ss| ==>
      ss[k].source == tt[k].source && ss[k].target == tt[k].target && ss[k].trust == tt[k].trust
    ensures IncomingInput(ns, ss, j) == IncomingInput(ms, tt, j)
  {
    if ss != [] {
      var last := ss[|ss| - 1];
      assert EffectiveSignal(ns[last.source]) == EffectiveSignal(ms[last.source]);
      IncomingInputAgrees(ns, ms, ss[..|ss| - 1], tt[..|tt| - 1], j);
    }
  }

  /** A cycle keeps every trust and trace in [0, 1]. */
  lemma CycledSynapsesStayInUnitRange(ns: seq<Neuron>, ss: seq<Synapse>)
    requires EdgesIn(ss, |ns|)
    requires AllInUnitRange(ss)
    ensures AllInUnitRange(CycledSynapses(ns, ss))
  {
  }

  /** Trust after a reward on a synapse that passed the trace gate: the
      confidence-scaled increment, the decay, then the clamp into [0, 1]. */
  function RewardedTrust(trust: real, reward: real, trace: real, evidence: real): (r: real)
    ensures 0.0 <= r <= 1.0
  {
    var deltaTrust := LearningRate * reward * trace * evidence;
    Clamp((trust + deltaTrust) * (1.0 - TrustDecay), 0.0, 1.0)
  }

  /** A synapse after the reward pass: untouched unless its trace passes
      the gate; endpoints and trace are never changed, and a gated trust
      ends in [0, 1] whatever the reward. */
  function Reward(ns: seq<Neuron>, s: Synapse, reward: real): (r: Synapse)
    requires RewardTraceGate < s.trace ==> 0 <= s.source < |ns| && 0 <= s.target < |ns|
    ensures r.source == s.source && r.target == s.target && r.trace == s.trace
    ensures s.trace <= RewardTraceGate ==> r == s
    ensures RewardTraceGate < s.trace ==> 0.0 <= r.trust <= 1.0
  {
    if s.trace > RewardTraceGate then
      var evidence := EvidenceScaling(ns[s.source], ns[s.target]);
      s.(trust := RewardedTrust(s.trust, reward, s.trace, evidence))
    else s
  }

  /** Evidence scaling of a synapse: the product of its endpoints'
      confidences. */
  function EvidenceScaling(source: Neuron, target: Neuron): real
  {
    source.confidence * target.confidence
  }

  /** The synapse vector after the reward pass. */
  function RewardedSynapses(ns: seq<Neuron>, ss: seq<Synapse>, reward: real): (r: seq<Synapse>)
    requires RewardEdgesIn(ss, |ns|)
    ensures |r| == |ss|
  {
    seq(|ss|, k requires 0 <= k < |ss| => Reward(ns, ss[k], reward))
  }

  class Network {
    var neurons: seq<Neuron>
    var synapses: seq<Synapse>
    const homeostasis: GlobalHomeostasis

    /** The controller keeps its invariant and its estimate and samples
      are fractions; every synapse has trust and trace in [0, 1]. */
    ghost predicate Valid()
      reads this, homeostasis
    {
      && homeostasis.Valid()
      && ActivityInUnitRange(homeostasis.State())
      && AllInUnitRange(synapses)
    }

    constructor ()
      ensures Valid() && fresh(homeostasis)
      ensures neurons == [] && synapses == []
      ensures homeostasis.State() == InitialState()
    {
      neurons := [];
      synapses := [];
      homeostasis := new GlobalHomeostasis();
    }

    /** Appends a default neuron with id `id` at index `|old(neurons)|`. */
    method AddNeuron(id: NeuronId)
      requires Valid()
      modifies this
      ensures Valid()
      ensures neurons == old(neurons) + [NewNeuron(id)]
      ensures synapses == old(synapses)
      ensures EdgesIn(old(synapses), |old(neurons)|) ==> EdgesIn(synapses, |neurons|)
    {
      neurons := neurons + [NewNeuron(id)];
    }

    /** Appends a new synapse at index `|old(synapses)|`; the indices are
      not checked. */
    method AddSynapse(source: int, target: int)
      requires Valid()
      modifies this
      ensures Valid()
      ensures synapses == old(synapses) + [NewSynapse(source, target)]
      ensures neurons == old(neurons)
      ensures EdgesIn(synapses, |neurons|) <==>
        EdgesIn(old(synapses), |neurons|) && 0 <= source < |neurons| && 0 <= target < |neurons|
    {
      synapses := synapses + [NewSynapse(source, target)];
      if EdgesIn(synapses, |neurons|) {
        assert synapses[|synapses| - 1] == NewSynapse(source, target);
        forall k | 0 <= k < |old(synapses)|
          ensures 0 <= old(synapses)[k].source < |neurons| && 0 <= old(synapses)[k].target < |neurons|
        {
          assert synapses[k] == old(synapses)[k];
        }
      }
    }

    /** Sets one neuron's activity and confidence; an index that is not a
      position of the vector is silently ignored. */
    method SetNeuronState(idx: int, activity: real, confidence: real)
      requires Valid()
      modifies this
      ensures Valid()
      ensures IndexInRange(idx, |old(neurons)|) ==>
        neurons == old(neurons)[idx := old(neurons)[idx].(activity := activity, confidence := confidence)]
      ensures !IndexInRange(idx, |old(neurons)|) ==> neurons == old(neurons)
      ensures synapses == old(synapses)
    {
      if IndexInRange(idx, |neurons|) {
        neurons := neurons[idx := neurons[idx].(activity := activity, confidence := confidence)];
      }
    }

    /** One cycle: count last cycle's firers, update the controller, reset
      the per-cycle fields, halve every trace, propagate the signals, derive
      confidence and firing, and tag causal synapses. Returns the snapshot
      of the controller update. */
    method CycleStep(libm: Libm) returns (data: HomeostasisData)
      requires Valid()
      requires EdgesIn(synapses, |neurons|)
      modifies this, homeostasis
      ensures Valid()
      ensures UpdateResult(data, homeostasis.State())
           == Update(old(homeostasis.State()), FiredCount(old(neurons)), |old(neurons)|, libm)
      ensures neurons == CycledNeurons(old(neurons), old(synapses), data.thetaGlobal)
      ensures synapses == CycledSynapses(neurons, old(synapses))
    {
      ghost var ns0, ss0 := neurons, synapses;

      var activeCount := CountFired();
      HomeostasisProperties.UpdateKeepsActivityInUnitRange(homeostasis.State(), activeCount, |neurons|, libm);
      data := homeostasis.UpdateHomeostasis(activeCount, |neurons|, libm);
      var theta := homeostasis.GetCurrentThreshold();

      ResetScratch();
      ghost var ns1 := neurons;
      DecayTraces();
      ghost var ss1 := synapses;
      assert EdgesIn(ss1, |ns1|) by {
        forall k | 0 <= k < |ss1|
          ensures 0 <= ss1[k].source < |ns1| && 0 <= ss1[k].target < |ns1|
        {
          assert ss1[k].source == ss0[k].source && ss1[k].target == ss0[k].target;
        }
      }
      Propagate();
      ghost var ns2 := neurons;
      forall j | 0 <= j < |ns0|
        ensures ns2[j] == Received(ns0[j], IncomingInput(ns0, ss0, j))
      {
        IncomingInputAgrees(ns1, ns0, ss1, ss0, j);
      }
      DeriveFiring(theta);
      assert neurons == CycledNeurons(ns0, ss0, theta) by {
        forall j | 0 <= j < |ns0|
          ensures neurons[j] == CycledNeurons(ns0, ss0, theta)[j]
        {
          assert neurons[j] == Derive(ns2[j], theta);
        }
      }
      TagCausal();
      assert synapses == CycledSynapses(neurons, ss0) by {
        forall k | 0 <= k < |ss0|
          ensures synapses[k] == CycledSynapses(neurons, ss0)[k]
        {
          assert Causal(neurons, ss1[k]) == Causal(neurons, ss0[k]);
        }
      }
      CycledSynapsesStayInUnitRange(neurons, ss0);
    }

    /** Number of neurons whose firing flag is set. */
    method CountFired() returns (count: nat)
      ensures count == FiredCount(neurons)
    {
      count := 0;
      var i := 0;
      while i < |neurons|
        invariant 0 <= i <= |neurons|
        invariant count == FiredCount(neurons[..i])
      {
        assert neurons[..i + 1][..i] == neurons[..i];
        if neurons[i].firedLastCycle {
          count := count + 1;
        }
        i := i + 1;
      }
      assert neurons[..i] == neurons;
    }

    /** Zeroes every neuron's input and clears its firing flag. */
    method ResetScratch()
      modifies this
      ensures synapses == old(synapses)
      ensures |neurons| == |old(neurons)|
      ensures forall j :: 0 <= j < |neurons| ==>
        neurons[j] == old(neurons)[j].(totalInput := 0.0, firedLastCycle := false)
    {
      var i := 0;
      while i < |neurons|
        invariant 0 <= i <= |neurons| == |old(neurons)|
        invariant synapses == old(synapses)
        invariant forall j :: 0 <= j < i ==> neurons[j] == old(neurons)[j].(totalInput := 0.0, firedLastCycle := false)
        invariant forall j :: i <= j < |neurons| ==> neurons[j] == old(neurons)[j]
      {
        neurons := neurons[i := neurons[i].(totalInput := 0.0, firedLastCycle := false)];
        i := i + 1;
      }
    }

    /** Halves every eligibility trace. */
    method DecayTraces()
      modifies this
      ensures neurons == old(neurons)
      ensures |synapses| == |old(synapses)|
      ensures forall k :: 0 <= k < |synapses| ==>
        synapses[k] == old(synapses)[k].(trace := old(synapses)[k].trace * TraceDecay)
    {
      var k := 0;
      while k < |synapses|
        invariant 0 <= k <= |synapses| == |old(synapses)|
        invariant neurons == old(neurons)
        invariant forall m :: 0 <= m < k ==> synapses[m] == old(synapses)[m].(trace := old(synapses)[m].trace * TraceDecay)
        invariant forall m :: k <= m < |synapses| ==> synapses[m] == old(synapses)[m]
      {
        synapses := synapses[k := synapses[k].(trace := synapses[k].trace * TraceDecay)];
        k := k + 1;
      }
    }

    /** Adds each synapse's signal to its target's input, in synapse order;
      nothing but the inputs changes. */
    method Propagate()
      requires EdgesIn(synapses, |neurons|)
      modifies this
      ensures synapses == old(synapses)
      ensures |neurons| == |old(neurons)|
      ensures forall j :: 0 <= j < |neurons| ==>
        neurons[j] == old(neurons)[j].(totalInput := old(neurons)[j].totalInput + IncomingInput(old(neurons), synapses, j))
    {
      ghost var ns0 := neurons;
      var k := 0;
      EdgesInPrefix(synapses, |neurons|, 0);
      while k < |synapses|
        invariant 0 <= k <= |synapses|
        invariant synapses == old(synapses)
        invariant |neurons| == |ns0|
        invariant EdgesIn(synapses[..k], |ns0|)
        invariant forall j :: 0 <= j < |neurons| ==>
          neurons[j] == ns0[j].(totalInput := ns0[j].totalInput + IncomingInput(ns0, synapses[..k], j))
      {
        var synapse := synapses[k];
        var source := neurons[synapse.source];
        assert EffectiveSignal(source) == EffectiveSignal(ns0[synapse.source]);
        var effectiveSignal := EffectiveSignal(source);
        neurons := neurons[synapse.target := neurons[synapse.target].(totalInput := neurons[synapse.target].totalInput + Weighted(effectiveSignal, synapse.trust))];
        EdgesInPrefix(synapses, |ns0|, k + 1);
        forall j | 0 <= j < |neurons|
          ensures neurons[j] == ns0[j].(totalInput := ns0[j].totalInput + IncomingInput(ns0, synapses[..k + 1], j))
        {
          IncomingInputStep(ns0, synapses, k, j);
        }
        k := k + 1;
      }
      assert synapses[..k] == synapses;
    }

    /** Derives confidence from a positive input and raises the firing flag
      of every neuron whose input exceeds `theta`. */
    method DeriveFiring(theta: real)
      modifies this
      ensures synapses == old(synapses)
      ensures |neurons| == |old(neurons)|
      ensures forall j :: 0 <= j < |neurons| ==> neurons[j] == Derive(old(neurons)[j], theta)
    {
      var i := 0;
      while i < |neurons|
        invariant 0 <= i <= |neurons| == |old(neurons)|
        invariant synapses == old(synapses)
        invariant forall j :: 0 <= j < i ==> neurons[j] == Derive(old(neurons)[j], theta)
        invariant forall j :: i <= j < |neurons| ==> neurons[j] == old(neurons)[j]
      {
        var neuron := neurons[i];
        if neuron.totalInput > 0.0 {
          neuron := neuron.(confidence := Min(1.0, neuron.totalInput));
        }
        if neuron.ShouldFire(theta) {
          neuron := neuron.(firedLastCycle := true);
        }
        neurons := neurons[i := neuron];
        i := i + 1;
      }
    }

    /** Resets to 1 the trace of every synapse whose source is active above
      the gate and whose target fired. */
    method TagCausal()
      requires EdgesIn(synapses, |neurons|)
      modifies this
      ensures neurons == old(neurons)
      ensures |synapses| == |old(synapses)|
      ensures forall k :: 0 <= k < |synapses| ==>
        synapses[k] == if Causal(neurons, old(synapses)[k]) then old(synapses)[k].(trace := 1.0) else old(synapses)[k]
    {
      var k := 0;
      while k < |synapses|
        invariant 0 <= k <= |synapses| == |old(synapses)|
        invariant neurons == old(neurons)
        invariant forall m :: 0 <= m < k ==>
          synapses[m] == if Causal(neurons, old(synapses)[m]) then old(synapses)[m].(trace := 1.0) else old(synapses)[m]
        invariant forall m :: k <= m < |synapses| ==> synapses[m] == old(synapses)[m]
      {
        if neurons[synapses[k].source].activity > TagActivityGate && neurons[synapses[k].target].firedLastCycle {
          synapses := synapses[k := synapses[k].(trace := 1.0)];
        }
        k := k + 1;
      }
    }

    /** The reward pass: every synapse whose trace passes the gate has its
      trust moved by the confidence-scaled reward, decayed and clamped;
      all other synapses, all traces and all neurons are left as they are. */
    method ApplyReward(reward: real)
      requires Valid()
      requires RewardEdgesIn(synapses, |neurons|)
      modifies this
      ensures Valid()
      ensures neurons == old(neurons)
      ensures synapses == RewardedSynapses(neurons, old(synapses), reward)
    {
      ghost var ss0 := synapses;
      var k := 0;
      while k < |synapses|
        invariant 0 <= k <= |synapses| == |ss0|
        invariant neurons == old(neurons)
        invariant forall m :: 0 <= m < k ==> synapses[m] == Reward(neurons, ss0[m], reward)
        invariant forall m :: k <= m < |synapses| ==> synapses[m] == ss0[m]
      {
        var synapse := synapses[k];
        if synapse.trace > RewardTraceGate {
          var source := neurons[synapse.source];
          var target := neurons[synapse.target];
          var evidenceScaling := EvidenceScaling(source, target);
          var trust := RewardedTrust(synapse.trust, reward, synapse.trace, evidenceScaling);
          synapses := synapses[k := synapse.(trust := trust)];
        }
        k := k + 1;
      }
      assert synapses == RewardedSynapses(neurons, ss0, reward);
    }

    /** The number of neurons. */
    method GetTotalNeurons() returns (n: nat)
      ensures n == |neurons|
    {
      n := |neurons|;
    }

    /** A copy of neuron `idx`, or an out-of-range failure for an index
      that is not a position of the vector. */
    method GetNeuronCopy(idx: int) returns (r: Result<Neuron>)
      ensures IndexInRange(idx, |neurons|) ==> r == Ok(neurons[idx])
      ensures !IndexInRange(idx, |neurons|) ==> r == OutOfRange
    {
      if IndexInRange(idx, |neurons|) {
        return Ok(neurons[idx]);
      }
      return OutOfRange;
    }
  }
}
