/** Properties of the homeostasis controller over one update and over a
    run of successive updates. */
module HomeostasisProperties {
  import opened Numerics
  import opened Homeostasis

  /** The neuron census one update consumes: how many fired, out of how many. */
  datatype Census = Census(active: int, total: int)

  /** The state after one update on census `c`. */
  function Step(s: ControllerState, c: Census, libm: Libm): ControllerState
  {
    Update(s, c.active, c.total, libm).next
  }

  /** The state after applying `step` to each census of `cs` in order. */
  function Replay(step: (ControllerState, Census) -> ControllerState, s: ControllerState, cs: seq<Census>): ControllerState
  {
    if cs == [] then s else step(Replay(step, s, cs[..|cs| - 1]), cs[|cs| - 1])
  }

  /** The state after feeding `cs` to the controller in order. */
  function Run(s: ControllerState, cs: seq<Census>, libm: Libm): ControllerState
  {
    Replay((t, c) => Step(t, c, libm), s, cs)
  }

  /** The activity fractions of a run, in order. */
  function Samples(cs: seq<Census>): (r: seq<real>)
    ensures |r| == |cs|
  {
    if cs == [] then [] else Samples(cs[..|cs| - 1]) + [ActivityFraction(cs[|cs| - 1].active, cs[|cs| - 1].total)]
  }

  /** Every census of `cs` has an activity fraction at or above the target. */
  predicate NeverBelowTarget(cs: seq<Census>)
  {
    forall k :: 0 <= k < |cs| ==> ATarget <= ActivityFraction(cs[k].active, cs[k].total)
  }

  /** Every census of `cs` has an activity fraction at or below the target. */
  predicate NeverAboveTarget(cs: seq<Census>)
  {
    forall k :: 0 <= k < |cs| ==> ActivityFraction(cs[k].active, cs[k].total) <= ATarget
  }

  /** The last `n` elements of `xs`, or all of them when there are fewer. */
  function Recent(xs: seq<real>, n: nat): seq<real>
  {
    if |xs| <= n then xs else xs[|xs| - n..]
  }

  /** A blend with a weight in [0, 1] lies between the two blended values. */
  lemma BlendBetween(beta: real, a: real, b: real)
    requires 0.0 <= beta <= 1.0
    ensures Min(a, b) <= Blend(beta, a, b) <= Max(a, b)
  {
    var r := Blend(beta, a, b);
    assert r - b == beta * (a - b);
    assert r - a == (1.0 - beta) * (b - a);
    if a <= b {
      ProductNonNegative(beta, b - a);
      ProductNonNegative(1.0 - beta, b - a);
    } else {
      ProductNonNegative(beta, a - b);
      ProductNonNegative(1.0 - beta, a - b);
    }
  }

  /** When the census never counts more than the total, the smoothed
      estimate and every remembered sample stay fractions. */
  lemma UpdateKeepsActivityInUnitRange(s: ControllerState, active: int, total: int, libm: Libm)
    requires 0 <= active <= total
    requires ActivityInUnitRange(s)
    ensures ActivityInUnitRange(Update(s, active, total, libm).next)
  {
    var u := Update(s, active, total, libm);
    ActivityFractionIsRatio(active, total);
    BlendBetween(u.data.beta, u.data.aCurrent, s.aGlobal);
    var pushed := s.history + [u.data.aCurrent];
    var h := u.next.history;
    forall i | 0 <= i < |h|
      ensures 0.0 <= h[i] <= 1.0
    {
      assert h[i] == pushed[i + |s.history| + 1 - |h|];
    }
  }

  /** With a well-behaved `exp` and a non-negative volatility the clamp is
      inactive: the smoothing factor is exactly the exponential-decay
      shape. */
  lemma BetaFollowsExponentialShape(volatility: real, exp: real -> real)
    requires ExpOfNonPositiveInUnit(exp)
    requires 0.0 <= volatility
    ensures AdaptiveBeta(volatility, exp) == BetaMin + (BetaMax - BetaMin) * exp(-KDamping * volatility)
  {
    var x := -KDamping * volatility;
    assert x <= 0.0;
    assert 0.0 < exp(x) <= 1.0;
  }

  /** With a non-decreasing `exp`, more volatility never yields a larger
      smoothing factor: the controller relies more on its estimate. */
  lemma BetaNonIncreasingInVolatility(v1: real, v2: real, exp: real -> real)
    requires forall x, y :: x <= y ==> exp(x) <= exp(y)
    requires v1 <= v2
    ensures AdaptiveBeta(v2, exp) <= AdaptiveBeta(v1, exp)
  {
    assert -KDamping * v2 <= -KDamping * v1;
    assert exp(-KDamping * v2) <= exp(-KDamping * v1);
  }

  /** Sum of `n` copies of `c`. */
  lemma {:induction false} SumOfConstant(h: seq<real>, c: real)
    requires forall i :: 0 <= i < |h| ==> h[i] == c
    ensures Sum(h) == (|h| as real) * c
  {
    if h != [] {
      SumOfConstant(h[..|h| - 1], c);
    }
  }

  /** No deviation from the common value of a constant window. */
  lemma {:induction false} NoDeviationFromConstant(h: seq<real>, c: real)
    requires forall i :: 0 <= i < |h| ==> h[i] == c
    ensures SquaredDeviations(h, c) == 0.0
  {
    if h != [] {
      NoDeviationFromConstant(h[..|h| - 1], c);
    }
  }

  /** A window of identical samples has zero variance; with
      `sqrt(0) == 0` and `exp(0) == 1` it has zero volatility and the
      controller takes the largest smoothing factor. */
  lemma SteadyWindowGivesLargestBeta(h: seq<real>, c: real, libm: Libm)
    requires |h| > 0
    requires forall i :: 0 <= i < |h| ==> h[i] == c
    requires libm.sqrt(0.0) == 0.0 && libm.exp(0.0) == 1.0
    ensures Variance(h) == 0.0
    ensures Volatility(h, libm.sqrt) == 0.0
    ensures AdaptiveBeta(Volatility(h, libm.sqrt), libm.exp) == BetaMax
  {
    SumOfConstant(h, c);
    var n := |h| as real;
    assert (n * c) / n == c;
    assert Mean(h) == c;
    NoDeviationFromConstant(h, c);
    assert Variance(h) == 0.0 / n;
  }

  /** Pushing onto the recent suffix is the recent suffix of the extended
      sequence. */
  lemma PushRecent(xs: seq<real>, x: real)
    ensures PushWindow(Recent(xs, WindowSize), x) == Recent(xs + [x], WindowSize)
  {
    var ys := xs + [x];
    if |xs| >= WindowSize {
      var r := PushWindow(Recent(xs, WindowSize), x);
      assert |r| == WindowSize;
      assert r == (xs[|xs| - WindowSize..] + [x])[1..];
      assert r == ys[|ys| - WindowSize..];
    }
  }

  /** Over any run from a window within capacity, the window holds exactly
      the most recent samples, at most `WindowSize` of them, oldest first. */
  lemma {:induction false} RunKeepsRecentSamples(s: ControllerState, cs: seq<Census>, libm: Libm)
    requires |s.history| <= WindowSize
    ensures Run(s, cs, libm).history == Recent(s.history + Samples(cs), WindowSize)
  {
    if cs != [] {
      var pre := cs[..|cs| - 1];
      var last := cs[|cs| - 1];
      RunKeepsRecentSamples(s, pre, libm);
      var x := ActivityFraction(last.active, last.total);
      PushRecent(s.history + Samples(pre), x);
      assert s.history + Samples(cs) == (s.history + Samples(pre)) + [x];
    }
  }

  /** Replaying two sequences one after the other is replaying their
      concatenation, whatever the step. */
  lemma {:induction false} ReplayAppend(step: (ControllerState, Census) -> ControllerState, s: ControllerState, a: seq<Census>, b: seq<Census>)
    ensures Replay(step, s, a + b) == Replay(step, Replay(step, s, a), b)
  {
    if b == [] {
      assert a + b == a;
    } else {
      var ab := a + b;
      var front := b[..|b| - 1];
      assert ab[..|ab| - 1] == a + front;
      assert ab[|ab| - 1] == b[|b| - 1];
      ReplayAppend(step, s, a, front);
    }
  }

  /** Feeding two runs one after the other is feeding their concatenation. */
  lemma RunAppend(s: ControllerState, a: seq<Census>, b: seq<Census>, libm: Libm)
    ensures Run(s, a + b, libm) == Run(Run(s, a, libm), b, libm)
  {
    ReplayAppend((t, c) => Step(t, c, libm), s, a, b);
  }

  /** Whatever the census, the controller's invariant holds along any run:
      the window stays within capacity, the threshold within its band. */
  lemma {:induction false} RunStaysWellFormed(s: ControllerState, cs: seq<Census>, libm: Libm)
    requires WellFormed(s)
    ensures WellFormed(Run(s, cs, libm))
  {
    if cs != [] {
      RunStaysWellFormed(s, cs[..|cs| - 1], libm);
    }
  }

  /** Fed only fractions at or above the target, from an estimate at or
      above it, the estimate stays at or above the target and the threshold
      never falls. */
  lemma {:induction false} SustainedOveractivityRaisesThreshold(s: ControllerState, cs: seq<Census>, libm: Libm)
    requires WellFormed(s) && ATarget <= s.aGlobal
    requires NeverBelowTarget(cs)
    ensures WellFormed(Run(s, cs, libm))
    ensures ATarget <= Run(s, cs, libm).aGlobal
    ensures s.theta <= Run(s, cs, libm).theta
  {
    if cs != [] {
      var pre := cs[..|cs| - 1];
      var last := cs[|cs| - 1];
      SustainedOveractivityRaisesThreshold(s, pre, libm);
      var mid := Run(s, pre, libm);
      var u := Update(mid, last.active, last.total, libm);
      assert Run(s, cs, libm) == u.next;
      BlendBetween(u.data.beta, u.data.aCurrent, mid.aGlobal);
    }
  }

  /** The mirror image: fed only fractions at or below the target, from an
      estimate at or below it, the threshold never rises. */
  lemma {:induction false} SustainedUnderactivityLowersThreshold(s: ControllerState, cs: seq<Census>, libm: Libm)
    requires WellFormed(s) && s.aGlobal <= ATarget
    requires NeverAboveTarget(cs)
    ensures WellFormed(Run(s, cs, libm))
    ensures Run(s, cs, libm).aGlobal <= ATarget
    ensures Run(s, cs, libm).theta <= s.theta
  {
    if cs != [] {
      var pre := cs[..|cs| - 1];
      var last := cs[|cs| - 1];
      SustainedUnderactivityLowersThreshold(s, pre, libm);
      var mid := Run(s, pre, libm);
      var u := Update(mid, last.active, last.total, libm);
      assert Run(s, cs, libm) == u.next;
      BlendBetween(u.data.beta, u.data.aCurrent, mid.aGlobal);
    }
  }

  /** A prefix and a later slice of a census sequence inherit its bound on
      the activity fraction, and together they form the longer prefix. */
  lemma SliceBounds(cs: seq<Census>, i: nat, j: nat)
    requires i <= j <= |cs|
    ensures NeverBelowTarget(cs) ==> NeverBelowTarget(cs[..i]) && NeverBelowTarget(cs[i..j])
    ensures NeverAboveTarget(cs) ==> NeverAboveTarget(cs[..i]) && NeverAboveTarget(cs[i..j])
    ensures cs[..i] + cs[i..j] == cs[..j]
  {
    assert forall k :: 0 <= k < i ==> cs[..i][k] == cs[k];
    assert forall k :: 0 <= k < j - i ==> cs[i..j][k] == cs[i + k];
  }

  /** Extending an over-active run by more over-activity never lowers
      the threshold. */
  lemma OveractiveExtension(s: ControllerState, a: seq<Census>, b: seq<Census>, ab: seq<Census>, libm: Libm)
    requires WellFormed(s) && ATarget <= s.aGlobal
    requires NeverBelowTarget(a) && NeverBelowTarget(b) && ab == a + b
    ensures Run(s, a, libm).theta <= Run(s, ab, libm).theta
  {
    SustainedOveractivityRaisesThreshold(s, a, libm);
    SustainedOveractivityRaisesThreshold(Run(s, a, libm), b, libm);
    RunAppend(s, a, b, libm);
  }

  /** Extending an under-active run by more under-activity never raises
      the threshold. */
  lemma UnderactiveExtension(s: ControllerState, a: seq<Census>, b: seq<Census>, ab: seq<Census>, libm: Libm)
    requires WellFormed(s) && s.aGlobal <= ATarget
    requires NeverAboveTarget(a) && NeverAboveTarget(b) && ab == a + b
    ensures Run(s, ab, libm).theta <= Run(s, a, libm).theta
  {
    SustainedUnderactivityLowersThreshold(s, a, libm);
    SustainedUnderactivityLowersThreshold(Run(s, a, libm), b, libm);
    RunAppend(s, a, b, libm);
  }

  /** Under sustained over-activity the threshold is non-decreasing from
      one update to every later one. */
  lemma ThresholdNonDecreasingUnderOveractivity(s: ControllerState, cs: seq<Census>, libm: Libm, i: nat, j: nat)
    requires WellFormed(s) && ATarget <= s.aGlobal
    requires NeverBelowTarget(cs)
    requires i <= j <= |cs|
    ensures Run(s, cs[..i], libm).theta <= Run(s, cs[..j], libm).theta
  {
    SliceBounds(cs, i, j);
    OveractiveExtension(s, cs[..i], cs[i..j], cs[..j], libm);
  }

  /** Under sustained under-activity the threshold is non-increasing from
      one update to every later one. */
  lemma ThresholdNonIncreasingUnderUnderactivity(s: ControllerState, cs: seq<Census>, libm: Libm, i: nat, j: nat)
    requires WellFormed(s) && s.aGlobal <= ATarget
    requires NeverAboveTarget(cs)
    requires i <= j <= |cs|
    ensures Run(s, cs[..j], libm).theta <= Run(s, cs[..i], libm).theta
  {
    SliceBounds(cs, i, j);
    UnderactiveExtension(s, cs[..i], cs[i..j], cs[..j], libm);
  }
}
