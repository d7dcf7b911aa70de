/** What one network cycle and one reward pass do to each neuron and each
    synapse, stated against the functions that specify them, plus the first
    cycle of the demonstration wiring. */
module NetworkProperties {
  import opened Numerics
  import opened Neurons
  import opened Synapses
  import opened Homeostasis
  import opened Networks

  /** Number of positions whose firing flag is set, as a set. */
  ghost function FiringPositions(ns: seq<Neuron>): set<int>
  {
    set i | 0 <= i < |ns| && ns[i].firedLastCycle
  }

  /** The count handed to the controller is the number of neurons that
      fired in the previous cycle. */
  lemma {:induction false} FiredCountIsCardinality(ns: seq<Neuron>)
    ensures FiredCount(ns) == |FiringPositions(ns)|
  {
    if ns != [] {
      var pre := ns[..|ns| - 1];
      FiredCountIsCardinality(pre);
      var last := |ns| - 1;
      assert |ns| - 1 !in FiringPositions(pre);
      if ns[last].firedLastCycle {
        assert FiringPositions(ns) == FiringPositions(pre) + {last};
      } else {
        assert FiringPositions(ns) == FiringPositions(pre);
      }
    }
  }

  /** Appending a synapse adds its signal to its own target's input and
      nothing to any other neuron's. */
  lemma IncomingInputOfAppended(ns: seq<Neuron>, ss: seq<Synapse>, s: Synapse, j: int)
    requires EdgesIn(ss + [s], |ns|)
    ensures EdgesIn(ss, |ns|) && 0 <= s.source < |ns|
    ensures IncomingInput(ns, ss + [s], j)
         == IncomingInput(ns, ss, j) + (if s.target == j then Signal(ns, s) else 0.0)
  {
    assert (ss + [s])[..|ss|] == ss;
    assert (ss + [s])[|ss|] == s;
  }

  /** Appending a neuron changes no neuron's input. */
  lemma {:induction false} IncomingInputIgnoresAppendedNeuron(ns: seq<Neuron>, ss: seq<Synapse>, n: Neuron, j: int)
    requires EdgesIn(ss, |ns|)
    ensures EdgesIn(ss, |ns + [n]|)
    ensures IncomingInput(ns + [n], ss, j) == IncomingInput(ns, ss, j)
  {
    if ss != [] {
      var last := ss[|ss| - 1];
      assert (ns + [n])[last.source] == ns[last.source];
      IncomingInputIgnoresAppendedNeuron(ns, ss[..|ss| - 1], n, j);
    }
  }

  /** A neuron that no synapse targets receives no input. */
  lemma {:induction false} NoIncomingNoInput(ns: seq<Neuron>, ss: seq<Synapse>, j: int)
    requires EdgesIn(ss, |ns|)
    requires !Targeted(ss, j)
    ensures IncomingInput(ns, ss, j) == 0.0
  {
    if ss != [] {
      var front := ss[..|ss| - 1];
      assert !Targeted(front, j) by {
        forall k | 0 <= k < |front|
          ensures front[k].target != j
        {
          assert front[k] == ss[k];
        }
      }
      NoIncomingNoInput(ns, front, j);
    }
  }

  /** With non-negative activities, confidences and trusts every input is
      non-negative. */
  lemma {:induction false} InputNonNegative(ns: seq<Neuron>, ss: seq<Synapse>, j: int)
    requires EdgesIn(ss, |ns|)
    requires forall i :: 0 <= i < |ns| ==> 0.0 <= ns[i].activity && 0.0 <= ns[i].confidence
    requires forall k :: 0 <= k < |ss| ==> 0.0 <= ss[k].trust
    ensures 0.0 <= IncomingInput(ns, ss, j)
  {
    if ss != [] {
      var last := ss[|ss| - 1];
      var source := ns[last.source];
      ProductNonNegative(source.activity, source.confidence);
      ProductNonNegative(EffectiveSignal(source), last.trust);
      InputNonNegative(ns, ss[..|ss| - 1], j);
    }
  }

  /** Neuron `j` after a cycle at threshold `theta`: identity, activity and
      energy are kept; its input is the accumulated signal of the synapses
      into it, computed from the neurons before the cycle; a positive input
      becomes its confidence, capped at 1, and otherwise the confidence is
      kept; it fires exactly when that input exceeds `theta`. */
  lemma CycledNeuron(ns: seq<Neuron>, ss: seq<Synapse>, theta: real, j: int)
    requires EdgesIn(ss, |ns|) && 0 <= j < |ns|
    ensures var r, input := CycledNeurons(ns, ss, theta)[j], IncomingInput(ns, ss, j);
      && r.id == ns[j].id && r.activity == ns[j].activity && r.energy == ns[j].energy
      && r.totalInput == input
      && r.confidence == (if input > 0.0 then Min(1.0, input) else ns[j].confidence)
      && (r.firedLastCycle <==> input > theta)
      && (r.firedLastCycle <==> r.ShouldFire(theta))
  {
  }

  /** A cycle keeps every confidence that was in [0, 1] in [0, 1]. */
  lemma CycleKeepsConfidenceInUnitRange(ns: seq<Neuron>, ss: seq<Synapse>, theta: real, j: int)
    requires EdgesIn(ss, |ns|) && 0 <= j < |ns|
    requires 0.0 <= ns[j].confidence <= 1.0
    ensures 0.0 <= CycledNeurons(ns, ss, theta)[j].confidence <= 1.0
  {
    CycledNeuron(ns, ss, theta, j);
  }

  /** A neuron without incoming synapses comes out of a cycle at a
      non-negative threshold with a zero input, its flag cleared and
      everything else as it was. Since the cycle's threshold is never below
      ThetaMin, such a sensor neuron never fires. */
  lemma IsolatedNeuronIsQuiet(ns: seq<Neuron>, ss: seq<Synapse>, theta: real, j: int)
    requires EdgesIn(ss, |ns|) && 0 <= j < |ns|
    requires !Targeted(ss, j)
    requires 0.0 <= theta
    ensures CycledNeurons(ns, ss, theta)[j] == ns[j].(totalInput := 0.0, firedLastCycle := false)
  {
    NoIncomingNoInput(ns, ss, j);
  }

  /** Synapse `k` after a cycle: endpoints and trust are kept; the trace is
      1 when the synapse is causal and half its old value otherwise; it is
      causal exactly when its source's activity passes the gate and its
      target's input exceeds `theta`. */
  lemma CycledSynapse(ns: seq<Neuron>, ss: seq<Synapse>, theta: real, k: int)
    requires EdgesIn(ss, |ns|) && 0 <= k < |ss|
    ensures var ms := CycledNeurons(ns, ss, theta);
      EdgesIn(ss, |ms|) &&
      var r := CycledSynapses(ms, ss)[k];
      && r.source == ss[k].source && r.target == ss[k].target && r.trust == ss[k].trust
      && (Causal(ms, ss[k]) ==> r.trace == 1.0)
      && (!Causal(ms, ss[k]) ==> r.trace == ss[k].trace * TraceDecay)
      && (Causal(ms, ss[k]) <==>
            ns[ss[k].source].activity > TagActivityGate && IncomingInput(ns, ss, ss[k].target) > theta)
  {
    CycledNeuron(ns, ss, theta, ss[k].source);
    CycledNeuron(ns, ss, theta, ss[k].target);
  }

  /** After a cycle every trace is either exactly 1 or exactly half of
      what it was. */
  lemma TraceHalvedOrReset(ns: seq<Neuron>, ss: seq<Synapse>, k: int)
    requires EdgesIn(ss, |ns|) && 0 <= k < |ss|
    ensures CycledSynapses(ns, ss)[k].trace == 1.0
         || CycledSynapses(ns, ss)[k].trace == ss[k].trace / 2.0
  {
  }

  /** Synapse `k` after a reward: endpoints and trace are kept; a synapse
      whose trace does not pass the gate is untouched; any other one ends
      with a trust in [0, 1], whatever the reward. */
  lemma RewardedSynapse(ns: seq<Neuron>, ss: seq<Synapse>, reward: real, k: int)
    requires RewardEdgesIn(ss, |ns|) && 0 <= k < |ss|
    ensures var r := RewardedSynapses(ns, ss, reward)[k];
      && r.source == ss[k].source && r.target == ss[k].target && r.trace == ss[k].trace
      && (ss[k].trace <= RewardTraceGate ==> r == ss[k])
      && (RewardTraceGate < ss[k].trace ==> 0.0 <= r.trust <= 1.0)
  {
  }

  /** The reward pass keeps every trust and trace in [0, 1]. */
  lemma RewardKeepsUnitRange(ns: seq<Neuron>, ss: seq<Synapse>, reward: real)
    requires RewardEdgesIn(ss, |ns|) && AllInUnitRange(ss)
    ensures AllInUnitRange(RewardedSynapses(ns, ss, reward))
  {
    forall k | 0 <= k < |ss|
      ensures InUnitRange(RewardedSynapses(ns, ss, reward)[k])
    {
      RewardedSynapse(ns, ss, reward, k);
    }
  }

  /** Without reward a gated trust in [0, 1] only decays. */
  lemma ZeroRewardOnlyDecays(trust: real, trace: real, evidence: real)
    requires 0.0 <= trust <= 1.0
    ensures RewardedTrust(trust, 0.0, trace, evidence) == trust * (1.0 - TrustDecay)
  {
    assert LearningRate * 0.0 * trace * evidence == 0.0;
  }

  /** With a non-negative trace and evidence, a larger reward never yields
      a smaller trust. */
  lemma RewardMonotone(trust: real, r1: real, r2: real, trace: real, evidence: real)
    requires r1 <= r2 && 0.0 <= trace && 0.0 <= evidence
    ensures RewardedTrust(trust, r1, trace, evidence) <= RewardedTrust(trust, r2, trace, evidence)
  {
    var d1 := LearningRate * r1 * trace * evidence;
    var d2 := LearningRate * r2 * trace * evidence;
    ProductNonNegative(r2 - r1, trace);
    ProductNonNegative((r2 - r1) * trace, evidence);
    assert d2 - d1 == LearningRate * ((r2 - r1) * trace * evidence);
    ClampMonotone((trust + d1) * (1.0 - TrustDecay), (trust + d2) * (1.0 - TrustDecay), 0.0, 1.0);
  }

  /** The sign of the reward decides the direction: on a trust in [0, 1]
      a non-negative reward ends at or above the plain decay, a
      non-positive one at or below it. */
  lemma RewardSignDecidesDirection(trust: real, reward: real, trace: real, evidence: real)
    requires 0.0 <= trust <= 1.0 && 0.0 <= trace && 0.0 <= evidence
    ensures 0.0 <= reward ==> trust * (1.0 - TrustDecay) <= RewardedTrust(trust, reward, trace, evidence)
    ensures reward <= 0.0 ==> RewardedTrust(trust, reward, trace, evidence) <= trust * (1.0 - TrustDecay)
  {
    ZeroRewardOnlyDecays(trust, trace, evidence);
    if 0.0 <= reward {
      RewardMonotone(trust, 0.0, reward, trace, evidence);
    } else {
      RewardMonotone(trust, reward, 0.0, trace, evidence);
    }
  }

  /** The accessors' guard as written lets `-1` through although it is
      never a position of the vector. */
  lemma NegativeIndexPassesGuardAsWritten(size: nat)
    ensures GuardAsWritten(-1, size) && !IndexInRange(-1, size)
  {
  }

  /** The corrected guard is the one as written plus the lower bound: the
      indices the guard as written wrongly admits are exactly the negative
      ones. */
  lemma IndexInRangeIsGuardWithLowerBound(idx: int, ns: seq<Neuron>)
    ensures IndexInRange(idx, |ns|) <==> GuardAsWritten(idx, |ns|) && 0 <= idx
    ensures GuardAsWritten(idx, |ns|) && !IndexInRange(idx, |ns|) <==> idx < 0
  {
  }

  /** The demonstration wiring: two sensor neurons, both at confidence
      0.95 with activities 0.9 and 0.85, feeding one abstract neuron. */
  function DemoNeurons(): (ns: seq<Neuron>)
    ensures |ns| == 3
  {
    [ NewNeuron(NeuronId(0, 0, 0)).(activity := 0.9, confidence := 0.95),
      NewNeuron(NeuronId(0, 0, 1)).(activity := 0.85, confidence := 0.95),
      NewNeuron(NeuronId(0, 1, 2)) ]
  }

  function DemoSynapses(): (ss: seq<Synapse>)
    ensures EdgesIn(ss, 3)
  {
    [NewSynapse(0, 2), NewSynapse(1, 2)]
  }

  /** The first cycle of the demonstration: the abstract neuron receives
      0.9 * 0.95 * 0.6 + 0.85 * 0.95 * 0.6 = 0.9975, which exceeds every
      threshold in the band, so it fires and takes that input as its
      confidence; the sensors stay quiet; both synapses become causal; and
      a reward of 1 then raises both trusts from 0.6 to 0.68086725. */
  lemma DemoFirstCycle(theta: real)
    requires ThetaMin <= theta <= ThetaMax
    ensures var ms := CycledNeurons(DemoNeurons(), DemoSynapses(), theta);
      && ms[2].totalInput == 0.9975 && ms[2].confidence == 0.9975 && ms[2].firedLastCycle
      && !ms[0].firedLastCycle && !ms[1].firedLastCycle
      && var tagged := CycledSynapses(ms, DemoSynapses());
      && tagged[0].trace == 1.0 && tagged[1].trace == 1.0
      && RewardedSynapses(ms, tagged, 1.0)[0].trust == 0.68086725
      && RewardedSynapses(ms, tagged, 1.0)[1].trust == 0.68086725
  {
    var ns, ss := DemoNeurons(), DemoSynapses();
    assert ss[..1][..0] == [];
    assert ss[..1] == [ss[0]];
    assert IncomingInput(ns, ss, 2) == 0.9975 by {
      assert IncomingInput(ns, ss[..1], 2) == 0.513;
    }
    IsolatedNeuronIsQuiet(ns, ss, theta, 0);
    IsolatedNeuronIsQuiet(ns, ss, theta, 1);
  }

  /** The controller update that opens the first demonstration cycle:
      nothing has fired yet, so the fraction is 0, the one-sample window
      has volatility 0, and with `exp(0) = 1` the smoothing factor is
      0.3; the estimate drops from 0.20 to 0.14 and the threshold from 0.5
      to 0.4982, at which the abstract neuron fires. */
  lemma DemoFirstThreshold(libm: Libm)
    requires libm.exp(0.0) == 1.0
    ensures var u := Update(InitialState(), FiredCount(DemoNeurons()), |DemoNeurons()|, libm);
      && u.data.beta == BetaMax && u.data.aGlobal == 0.14 && u.data.thetaGlobal == 0.4982
      && CycledNeurons(DemoNeurons(), DemoSynapses(), u.data.thetaGlobal)[2].firedLastCycle
  {
    var ns := DemoNeurons();
    assert ns[..2][..1][..0] == [] && ns[..2][..1] == [ns[0]];
    assert ns[..2] == [ns[0], ns[1]] && ns[..3] == ns;
    assert FiredCount(ns) == 0;
    assert -KDamping * 0.0 == 0.0;
    var u := Update(InitialState(), 0, 3, libm);
    assert u.data.volatility == 0.0;
    assert u.data.beta == BetaMax;
    DemoFirstCycle(u.data.thetaGlobal);
  }

  /** The demonstration wiring built through the network's operations:
      three neurons, two synapses, the two sensors stimulated. */
  method BuildDemo() returns (network: Network)
    ensures fresh(network) && fresh(network.homeostasis)
    ensures network.Valid()
    ensures network.neurons == DemoNeurons() && network.synapses == DemoSynapses()
    ensures network.homeostasis.State() == InitialState()
  {
    network := new Network();
    network.AddNeuron(NeuronId(0, 0, 0));
    network.AddNeuron(NeuronId(0, 0, 1));
    network.AddNeuron(NeuronId(0, 1, 2));
    network.AddSynapse(0, 2);
    network.AddSynapse(1, 2);
    network.SetNeuronState(0, 0.9, 0.95);
    network.SetNeuronState(1, 0.85, 0.95);
  }

  /** The first iteration of the demonstration driver through the
      network's own operations: build the wiring, run one cycle, read the
      abstract neuron back and, since it fired, reward with 1. */
  method DemoFirstIteration(libm: Libm) returns (data: HomeostasisData, fired: bool, trusts: seq<real>)
    requires libm.exp(0.0) == 1.0
    ensures data.thetaGlobal == 0.4982
    ensures fired
    ensures trusts == [0.68086725, 0.68086725]
  {
    var network := BuildDemo();
    DemoFirstThreshold(libm);
    data := network.CycleStep(libm);
    DemoFirstCycle(data.thetaGlobal);
    var copy := network.GetNeuronCopy(2);
    fired := copy.Ok? && copy.value.firedLastCycle;
    if fired {
      network.ApplyReward(1.0);
    }
    trusts := [network.synapses[0].trust, network.synapses[1].trust];
  }
}
