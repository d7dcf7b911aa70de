# Neuro-symbolic network core in Dafny

This project models the regulation and learning engine of a small neural
network simulator written in C++. The model has three parts:

- **Neuron** (`neurons.dfy`): a value record with the strict firing test
  `totalInput > threshold`. **Synapse** (`synapses.dfy`): a directed edge
  between two neuron positions. It carries a long-term trust (initially
  0.6) and a short-term eligibility trace (initially 0).
- **GlobalHomeostasis** (`homeostasis.dfy`): a class whose fields are a
  window of at most 10 recent activity fractions, a smoothed activity
  estimate and the global firing threshold. Each update does these steps
  in order:
  - pushes the current activity fraction into the window;
  - computes the population standard deviation of the window (the
    volatility);
  - derives a clamped adaptive smoothing factor from it;
  - blends the estimate;
  - moves the threshold by a clamped proportional step.

  Each method is proved against a pure function: `UpdateHomeostasis`
  against `Update`, `CalculateVolatility` against `Volatility`, and the
  constructor against `InitialState`. `homeostasis_properties.dfy` proves
  what holds over single updates and over whole runs of updates.
- **Network** (`network.dfy`): a class holding the neuron vector, the
  synapse vector and one controller.
  - A cycle runs, in order:
    1. count last cycle's firers;
    2. update the controller;
    3. clear each neuron's input and firing flag;
    4. halve every trace;
    5. propagate `activity * confidence * trust` along every synapse;
    6. derive confidence and firing against the new threshold;
    7. reset the trace of causal synapses to 1.
  - The reward pass moves the trust of every synapse whose trace passes a
    gate, decays it, and clamps it into [0, 1].

  Each loop of the source is a method with its invariants.
  - `CycleStep` is proved against `Update`, `CycledNeurons` and
    `CycledSynapses`. `ApplyReward` is proved against `RewardedSynapses`.
  - The five loop methods `CycleStep` calls are each proved against a
    per-element description of the new vectors. `CountFired` is proved
    against `FiredCount`, and `Propagate` against `IncomingInput`.

  `network_properties.dfy` proves what those functions mean for each
  neuron and each synapse. It also replays the first iteration of the
  demonstration driver in `main.cpp`.

`std::sqrt` and `std::exp` are parameters (`Homeostasis.Libm`). A result
holds for every pair of functions unless it names the facts about them
it needs, as a precondition or as the condition of an `ensures`. These
facts are:
- the square root of a non-negative number is non-negative
  (`Homeostasis.Volatility`);
- the exponential of a non-positive number lies in (0, 1]
  (`HomeostasisProperties.BetaFollowsExponentialShape`);
- the exponential is non-decreasing
  (`HomeostasisProperties.BetaNonIncreasingInVolatility`);
- `sqrt(0) = 0` and `exp(0) = 1`
  (`HomeostasisProperties.SteadyWindowGivesLargestBeta`);
- `exp(0) = 1` (`NetworkProperties.DemoFirstThreshold` and
  `NetworkProperties.DemoFirstIteration`).

Doubles are modelled as mathematical reals.

## Model

| member | source | states |
|---|---|---|
| Numerics.Clamp | src/GlobalHomeostasis.cpp:68 | `max(lo, min(hi, x))` never falls below `lo`. With a non-empty band it lies in the band, is `x` when `x` is in the band, and is the nearer bound otherwise. |
| Neurons.NewNeuron | src/Neuron.cpp:3 | A new neuron keeps its id and takes the in-class defaults (activity 0, confidence 0, energy 1, not fired, input 0), so it fires at no non-negative threshold. |
| Neurons.Neuron.ShouldFire | src/Neuron.cpp:5-7 | Computes `totalInput > threshold`. An input equal to the threshold does not fire, and a neuron without input does not fire at a non-negative threshold. |
| Neurons.FiringIsStrict | src/Neuron.cpp:5-7 | A neuron fires iff its input is strictly above the threshold. An input equal to the threshold does not fire. Firing at a threshold implies firing at every lower one. Only `totalInput` matters. |
| Synapses.NewSynapse | src/Synapse.h:11-14 | A new synapse keeps its two indices and starts with trust 0.6 and trace 0, so it is within the unit range. |
| Homeostasis.InitialState | src/GlobalHomeostasis.cpp:6-20 | After construction the history is empty, the estimate is 0.20 and the threshold is 0.5. That state is well formed and holds only fractions. |
| Homeostasis.ActivityFraction | src/GlobalHomeostasis.cpp:48 | A non-positive total yields exactly 0 instead of a division. |
| Homeostasis.ActivityFractionIsRatio | src/GlobalHomeostasis.cpp:48 | With a positive total the fraction times the total is the active count. With `0 <= active <= total` it lies in [0, 1]. |
| Homeostasis.PushWindow | src/GlobalHomeostasis.cpp:51-54 | The window after a push is the suffix of old window + new sample, ends with the new sample and has length `min(old + 1, 10)`. The oldest sample is dropped and the order is kept. |
| Homeostasis.Sum | src/GlobalHomeostasis.cpp:27 | Computes the sum of the window, accumulated from the oldest sample. `CalculateVolatility` proves its first loop equal to it. |
| Homeostasis.Mean | src/GlobalHomeostasis.cpp:28 | Computes the sum divided by the window length. `SteadyWindowGivesLargestBeta` uses it as the mean of a constant window. |
| Homeostasis.SquaredDeviations | src/GlobalHomeostasis.cpp:30-33 | The accumulated squared deviations are never negative. |
| Homeostasis.Variance | src/GlobalHomeostasis.cpp:34 | The population variance (divided by n, not n - 1) is never negative. |
| Homeostasis.Volatility | src/GlobalHomeostasis.cpp:22-37 | Volatility is exactly 0 below two samples. It is non-negative whenever the square root is. |
| Homeostasis.AdaptiveBeta | src/GlobalHomeostasis.cpp:39-44 | The smoothing factor lies in [0.05, 0.3] for every volatility and every `exp`. |
| Homeostasis.Blend | src/GlobalHomeostasis.cpp:61 | Computes `beta * aCurrent + (1 - beta) * aOld`. Weight 0 keeps the old estimate and weight 1 takes the current fraction. `BlendBetween` bounds it between the two. |
| Homeostasis.ThresholdStep | src/GlobalHomeostasis.cpp:64-68 | The new threshold lies in [0.1, 0.9] for every error. From a threshold in the band it does not fall for a non-negative error and does not rise for a non-positive one. |
| Homeostasis.Update | src/GlobalHomeostasis.cpp:46-71 | The snapshot reports the new estimate and threshold, its current fraction is `ActivityFraction`, and its error is the new estimate minus 0.20. The threshold is in its band, and a window within capacity stays within it. |
| Homeostasis.GlobalHomeostasis.constructor | src/GlobalHomeostasis.cpp:6-20 | The fields hold the initial state and the invariant holds. |
| Homeostasis.GlobalHomeostasis.CalculateVolatility | src/GlobalHomeostasis.cpp:22-37 | The two accumulation loops return exactly `Volatility` of the history. |
| Homeostasis.GlobalHomeostasis.UpdateHomeostasis | src/GlobalHomeostasis.cpp:46-71 | The in-place update keeps the invariant (window ≤ 10, threshold in band). The returned snapshot and the new fields are exactly `Update` of the old fields. |
| Homeostasis.GlobalHomeostasis.GetCurrentThreshold | src/GlobalHomeostasis.cpp:73-75 | Returns the threshold field, always in [0.1, 0.9], so it equals the threshold of the snapshot just returned. |
| HomeostasisProperties.BlendBetween | src/GlobalHomeostasis.cpp:61 | A blend with weight in [0, 1] lies between the two blended values. |
| HomeostasisProperties.UpdateKeepsActivityInUnitRange | src/GlobalHomeostasis.cpp:48-61 | With `0 <= active <= total`, an estimate and samples in [0, 1] stay in [0, 1] after an update. |
| HomeostasisProperties.BetaFollowsExponentialShape | src/GlobalHomeostasis.cpp:39-44 | For a non-negative volatility and an `exp` mapping non-positive numbers into (0, 1], the clamp is inactive: beta is exactly `0.05 + 0.25 * exp(-2 * volatility)`. |
| HomeostasisProperties.BetaNonIncreasingInVolatility | src/GlobalHomeostasis.cpp:41-43 | With a non-decreasing `exp`, more volatility never gives a larger beta. |
| HomeostasisProperties.SteadyWindowGivesLargestBeta | src/GlobalHomeostasis.cpp:22-44 | A window of identical samples has variance 0. When `sqrt(0) = 0` and `exp(0) = 1`, its volatility is 0 and beta is the maximum 0.3. |
| HomeostasisProperties.RunKeepsRecentSamples | src/GlobalHomeostasis.cpp:51-54 | Over any run of updates the window holds exactly the last (at most 10) activity fractions, oldest first. |
| HomeostasisProperties.RunStaysWellFormed | src/GlobalHomeostasis.cpp:46-71 | Over any run of updates the window stays within capacity and the threshold within [0.1, 0.9]. |
| HomeostasisProperties.SustainedOveractivityRaisesThreshold | src/GlobalHomeostasis.cpp:61-68 | Fed only fractions at or above the target, from an estimate at or above it, the estimate stays at or above the target and the threshold never ends below where it started. |
| HomeostasisProperties.SustainedUnderactivityLowersThreshold | src/GlobalHomeostasis.cpp:61-68 | The mirror image: the estimate stays at or below the target and the threshold never ends above where it started. |
| HomeostasisProperties.OveractiveExtension | src/GlobalHomeostasis.cpp:64-68 | Extending an over-active run (every fraction at or above the target, estimate at or above it) by more over-activity never lowers the threshold. |
| HomeostasisProperties.UnderactiveExtension | src/GlobalHomeostasis.cpp:64-68 | Extending an under-active run by more under-activity never raises the threshold. |
| HomeostasisProperties.ThresholdNonDecreasingUnderOveractivity | src/GlobalHomeostasis.cpp:64-68 | Under sustained over-activity the threshold after i updates is at most the threshold after j ≥ i updates. |
| HomeostasisProperties.ThresholdNonIncreasingUnderUnderactivity | src/GlobalHomeostasis.cpp:64-68 | Under sustained under-activity the threshold after j ≥ i updates is at most the threshold after i updates. |
| Networks.FiredCount | src/Network.cpp:32-37 | The firing count never exceeds the number of neurons. |
| Networks.IncomingInput | src/Network.cpp:51-59 | Computes the sum, in synapse order, of `activity * confidence * trust` over the synapses into neuron `j`. `Propagate` is proved against it, and `IncomingInputStep`, `NoIncomingNoInput` and `InputNonNegative` state its properties. |
| Networks.Derive | src/Network.cpp:62-71 | One neuron's firing step. Id, activity, energy and input are kept. A positive input becomes the confidence, capped at 1; otherwise the confidence is kept. The flag ends set iff it was set or the input exceeds the threshold. |
| Networks.Tag | src/Network.cpp:45-47 | One synapse's trace update: halved, then reset to 1 when causal (src/Network.cpp:75-79). Endpoints and trust are kept. The trace ends exactly 1 or exactly half, is 1 when causal, and stays in [0, 1]. |
| Networks.RewardedTrust | src/Network.cpp:93-100 | Computes `clamp((trust + 0.1 * reward * trace * evidence) * 0.98, 0, 1)`, which lies in [0, 1] for every input. |
| Networks.Reward | src/Network.cpp:88-101 | One synapse's reward step. A trace at or below 0.1 leaves it untouched. Otherwise the trust becomes `RewardedTrust` of the endpoints' confidence product, which lies in [0, 1]. Endpoints and trace are kept either way. |
| Networks.CycledNeurons | src/Network.cpp:41-71 | A cycle keeps the number of neurons. |
| Networks.CycledSynapses | src/Network.cpp:45-79 | A cycle keeps the number of synapses. |
| Networks.RewardedSynapses | src/Network.cpp:87-102 | The reward pass keeps the number of synapses. |
| Networks.IncomingInputStep | src/Network.cpp:51-59 | Accumulating one more synapse adds its signal to its own target's input and nothing to any other neuron's. |
| Networks.IncomingInputAgrees | src/Network.cpp:51-59 | A neuron's input depends only on source activity and confidence and on each synapse's endpoints and trust. Cleared inputs, flags and halved traces do not change it. |
| Networks.CycledSynapsesStayInUnitRange | src/Network.cpp:45-79 | A cycle keeps every trust and trace in [0, 1]. |
| Networks.Network.constructor | src/Network.cpp:7 | A new network is empty, and its controller is fresh and in its initial state. |
| Networks.Network.AddNeuron | src/Network.cpp:9-12 | Appends exactly one default neuron at index old size. Synapses and all existing neurons are unchanged. |
| Networks.Network.AddSynapse | src/Network.cpp:14-17 | Appends exactly one synapse (trust 0.6, trace 0) at index old size. All synapses then have valid endpoints iff they had before and both new indices are positions. |
| Networks.Network.SetNeuronState | src/Network.cpp:19-25 | With an index in range only that neuron's activity and confidence change. Otherwise the network is unchanged. |
| Networks.Network.CycleStep | src/Network.cpp:27-81 | The controller is updated once, with the count of last cycle's firers and the neuron count, and that snapshot is returned. The neurons become `CycledNeurons` at the snapshot's threshold. The synapses become `CycledSynapses` of the new neurons. The invariant is kept. |
| Networks.Network.CountFired | src/Network.cpp:32-37 | The counting loop returns `FiredCount` of the neurons. |
| Networks.Network.ResetScratch | src/Network.cpp:41-44 | Every neuron's input becomes 0 and its flag false. Nothing else changes. |
| Networks.Network.DecayTraces | src/Network.cpp:45-47 | Every trace is halved. Nothing else changes. |
| Networks.Network.Propagate | src/Network.cpp:51-59 | Each neuron's input grows by the sum, in synapse order, of `activity * confidence * trust` over the synapses into it. Nothing else changes. |
| Networks.Network.DeriveFiring | src/Network.cpp:62-71 | Every neuron becomes `Derive` of itself: a positive input sets confidence to `min(1, input)`, and an input above the threshold raises the flag. |
| Networks.Network.TagCausal | src/Network.cpp:75-79 | Exactly the synapses with source activity above 0.1 and a fired target get trace 1. Nothing else changes. |
| Networks.Network.ApplyReward | src/Network.cpp:83-103 | The synapses become `RewardedSynapses`. Neurons are unchanged and the invariant (trust and trace in [0, 1]) is kept. Only gated synapses need valid endpoints, because only their endpoints are read. |
| Networks.Network.GetTotalNeurons | src/Network.cpp:105-108 | Returns the number of neurons and changes nothing. |
| Networks.Network.GetNeuronCopy | src/Network.cpp:110-116 | An index in range yields that neuron. Any other index yields the out-of-range failure. Nothing changes. |
| NetworkProperties.FiredCountIsCardinality | src/Network.cpp:32-37 | The count handed to the controller is the number of positions whose firing flag is set. |
| NetworkProperties.IncomingInputOfAppended | src/Network.cpp:51-59 | Appending a synapse adds its signal to its target's input only. |
| NetworkProperties.IncomingInputIgnoresAppendedNeuron | src/Network.cpp:51-59 | Appending a neuron changes no input. |
| NetworkProperties.NoIncomingNoInput | src/Network.cpp:51-59 | A neuron that no synapse targets receives input 0. |
| NetworkProperties.InputNonNegative | src/Network.cpp:51-59 | With non-negative activities, confidences and trusts every input is non-negative. |
| NetworkProperties.CycledNeuron | src/Network.cpp:41-71 | Each neuron after a cycle: id, activity and energy are kept. Its input is the accumulated signal into it, computed from pre-cycle confidences. Its confidence is `min(1, input)` when the input is positive and otherwise unchanged. It fires iff the input exceeds the threshold. |
| NetworkProperties.CycleKeepsConfidenceInUnitRange | src/Network.cpp:65-67 | A confidence in [0, 1] stays in [0, 1] through a cycle. |
| NetworkProperties.IsolatedNeuronIsQuiet | src/Network.cpp:41-71 | At a non-negative threshold, a neuron without incoming synapses ends a cycle with input 0, no flag and everything else unchanged. |
| NetworkProperties.CycledSynapse | src/Network.cpp:45-79 | Each synapse after a cycle keeps its endpoints and trust. Its trace is 1 if causal and half its old value otherwise. It is causal iff source activity > 0.1 and the target's input exceeds the threshold. |
| NetworkProperties.TraceHalvedOrReset | src/Network.cpp:45-79 | After a cycle every trace is exactly 1 or exactly half its old value. |
| NetworkProperties.RewardedSynapse | src/Network.cpp:87-102 | Reward keeps endpoints and traces and leaves ungated synapses untouched. A gated synapse ends with trust in [0, 1] for any reward. |
| NetworkProperties.RewardKeepsUnitRange | src/Network.cpp:98-100 | The reward pass keeps every trust and trace in [0, 1]. |
| NetworkProperties.ZeroRewardOnlyDecays | src/Network.cpp:96-100 | With reward 0 a trust in [0, 1] becomes exactly `0.98 * trust`. |
| NetworkProperties.RewardMonotone | src/Network.cpp:96-100 | With non-negative trace and evidence, a larger reward never gives a smaller trust. |
| NetworkProperties.RewardSignDecidesDirection | src/Network.cpp:96-100 | A non-negative reward ends at or above the plain decay. A non-positive reward ends at or below it. |
| NetworkProperties.NegativeIndexPassesGuardAsWritten | src/Network.cpp:112 | The accessor guard as written admits index -1, which is no position of the vector. |
| NetworkProperties.IndexInRangeIsGuardWithLowerBound | src/Network.cpp:21 | The corrected guard is the written one plus `0 <= idx`. The indices the written guard wrongly admits are exactly the negative ones. |
| NetworkProperties.DemoNeurons | main.cpp:13-18 | The demonstration wiring has three neurons. |
| NetworkProperties.DemoSynapses | main.cpp:22-24 | Both demonstration synapses have valid endpoints. |
| NetworkProperties.DemoFirstCycle | main.cpp:37-58 | At every threshold in the band, the first cycle gives the abstract neuron input and confidence 0.9975, and it fires. The sensors do not fire and both traces become 1. A reward of 1 then moves both trusts from 0.6 to 0.68086725. |
| NetworkProperties.DemoFirstThreshold | main.cpp:50 | With `exp(0) = 1`, the controller update that opens the first cycle (0 of 3 fired) gives beta 0.3, estimate 0.14 and threshold 0.4982. The abstract neuron fires at that threshold. |
| NetworkProperties.BuildDemo | main.cpp:9-40 | The wiring built through the network's own operations is `DemoNeurons` and `DemoSynapses`, with the controller in its initial state. |
| NetworkProperties.DemoFirstIteration | main.cpp:37-58 | Through the network's own operations, with `exp(0) = 1`, the first iteration returns threshold 0.4982. The abstract neuron is read back as fired, and after the reward both trusts are 0.68086725. |

## Findings

| source | as written | input that shows it | evidently intended | confidence | as-written member | corrected member |
|---|---|---|---|---|---|---|
| src/Network.cpp:21, src/Network.cpp:112 | both accessors guard with `idx < size` only | `idx = -1` passes the guard; `set_neuron_state` then writes before the vector and `get_neuron_copy` reads before it | an index outside `[0, size)` is ignored by `set_neuron_state` and reported as out of range by `get_neuron_copy` | medium, not executed | NetworkProperties.NegativeIndexPassesGuardAsWritten (on Networks.GuardAsWritten) | Networks.IndexInRange, used by Networks.Network.SetNeuronState and Networks.Network.GetNeuronCopy; NetworkProperties.IndexInRangeIsGuardWithLowerBound |

## Left out

- `print_network_state` and `print_synapse_trust` (src/Network.cpp:118-139) only write to the console.
- The mutex in every network method is not modelled. Each public method is one atomic step.
- IEEE-754 rounding is not modelled: doubles are reals. `std::sqrt` and `std::exp` are parameters, not their exact values. Nothing is claimed about numeric convergence of the controller.
- The 50-cycle driver loop and its printing in `main.cpp` are not modelled. Only its wiring and first iteration are replayed, as `NetworkProperties.DemoFirstIteration`.
- `static_cast<int>(neurons.size())` is modelled as the exact neuron count. Vectors longer than `INT_MAX` are not considered.
- Networks.Network.CycleStep: requires every synapse to refer to two existing neurons. The source never validates synapse indices, and an invalid one is an out-of-bounds access.
- Networks.Network.ApplyReward: requires every synapse whose trace passes the 0.1 gate to refer to two existing neurons. Only those synapses' endpoints are read, so a bad index on an ungated synapse is allowed, as in the source.
- The tuning parameters are not modelled as fields. They are fields of `GlobalHomeostasis` and `Network` that are never reassigned, so they are module constants here.
- `NeuronId.h` and `Synapse.cpp` are not part of this model. The id is an opaque triple of integers, and the synapse constructor is taken to store its two indices.
- The neuron's `energy` field is carried unchanged. Nothing in the core reads or writes it after construction.
- `get_neuron_copy` throws `std::out_of_range`. Here it returns `OutOfRange` instead.
