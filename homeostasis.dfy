/** The global homeostasis controller: a bounded window of recent
    activity fractions, a smoothed activity estimate and the global firing
    threshold, adjusted once per network cycle. */
module Homeostasis {
  import opened Numerics

  /** Target activity fraction. */
  const ATarget: real := 0.20
  /** Threshold adaptation rate of the proportional step. */
  const Alpha: real := 0.03
  /** Band of the adaptive smoothing factor. */
  const BetaMin: real := 0.05
  const BetaMax: real := 0.3
  /** Damping constant of the exponential volatility response. */
  const KDamping: real := 2.0
  /** Band of the global threshold. */
  const ThetaMin: real := 0.1
  const ThetaMax: real := 0.9
  /** Capacity of the activity history. */
  const WindowSize: nat := 10
  /** Threshold of a freshly constructed controller. */
  const InitialTheta: real := 0.5

  /** The two library functions the controller calls, `std::sqrt` and
      `std::exp`. They are left open: whatever is proved below holds for
      every pair, unless a lemma names one of the predicates that follow. */
  datatype Libm = Libm(sqrt: real -> real, exp: real -> real)

  /** A square root is never negative on a non-negative argument. */
  ghost predicate SqrtNonNegative(sqrt: real -> real)
  {
    forall x :: 0.0 <= x ==> 0.0 <= sqrt(x)
  }

  /** The exponential of a non-positive number lies in (0, 1]. */
  ghost predicate ExpOfNonPositiveInUnit(exp: real -> real)
  {
    forall x :: x <= 0.0 ==> 0.0 < exp(x) <= 1.0
  }

  /** The snapshot one update returns. */
  datatype HomeostasisData = HomeostasisData(
    aCurrent: real,
    aGlobal: real,
    thetaGlobal: real,
    volatility: real,
    beta: real,
    error: real)

  /** The controller's mutable state as a value. */
  datatype ControllerState = ControllerState(history: seq<real>, aGlobal: real, theta: real)

  /** What one update produces: the snapshot and the next state. */
  datatype UpdateResult = UpdateResult(data: HomeostasisData, next: ControllerState)

  /** The controller's invariant: the window never exceeds its capacity and
      the threshold stays within its band. */
  predicate WellFormed(s: ControllerState)
  {
    |s.history| <= WindowSize && ThetaMin <= s.theta <= ThetaMax
  }

  /** The smoothed estimate and every remembered sample are fractions. */
  predicate ActivityInUnitRange(s: ControllerState)
  {
    && 0.0 <= s.aGlobal <= 1.0
    && Fractions(s.history)
  }

  /** Every sample lies in [0, 1]. */
  predicate Fractions(h: seq<real>)
  {
    forall i :: 0 <= i < |h| ==> 0.0 <= h[i] <= 1.0
  }

  /** State after construction: empty history, the estimate at the
      target, the threshold at its initial value. */
  function InitialState(): (s: ControllerState)
    ensures s.history == [] && s.aGlobal == ATarget && s.theta == InitialTheta
    ensures WellFormed(s) && ActivityInUnitRange(s)
  {
    ControllerState([], ATarget, InitialTheta)
  }

  /** Fraction of active neurons; a non-positive total yields 0 instead of
      a division fault. */
  function ActivityFraction(active: int, total: int): (a: real)
    ensures total <= 0 ==> a == 0.0
  {
    if total > 0 then (active as real) / (total as real) else 0.0
  }

  /** With a positive total the fraction is the ratio `active / total`;
      with a count between 0 and the total it is a fraction in [0, 1]. */
  lemma ActivityFractionIsRatio(active: int, total: int)
    ensures total > 0 ==> ActivityFraction(active, total) * (total as real) == active as real
    ensures 0 <= active <= total ==> 0.0 <= ActivityFraction(active, total) <= 1.0
  {
    if total > 0 {
      var a, n := active as real, total as real;
      assert (a / n) * n == a;
      if 0 <= active <= total {
        assert a / n <= n / n;
      }
    }
  }

  /** Appends a sample and, once the window is over capacity, drops the
      oldest one. The result is always the suffix of `h + [x]` of the
      resulting length, so it ends with `x` and keeps the order of the
      samples it retains; from a window within capacity its length is
      `min(|h| + 1, WindowSize)`. */
  function PushWindow(h: seq<real>, x: real): (r: seq<real>)
    ensures 1 <= |r| <= |h| + 1
    ensures r == (h + [x])[|h| + 1 - |r|..]
    ensures r[|r| - 1] == x
    ensures |h| <= WindowSize ==> |r| == if |h| < WindowSize then |h| + 1 else WindowSize
  {
    var pushed := h + [x];
    if |pushed| > WindowSize then pushed[1..] else pushed
  }

  /** Sum of the samples, accumulated from the oldest. */
  function Sum(h: seq<real>): real
  {
    if h == [] then 0.0 else Sum(h[..|h| - 1]) + h[|h| - 1]
  }

  /** Arithmetic mean of a non-empty window. */
  function Mean(h: seq<real>): real
    requires |h| > 0
  {
    Sum(h) / (|h| as real)
  }

  function Square(d: real): (r: real)
    ensures 0.0 <= r
  {
    d * d
  }

  /** Sum of the squared deviations of the samples from `m`, accumulated
      from the oldest; never negative. */
  function SquaredDeviations(h: seq<real>, m: real): (r: real)
    ensures 0.0 <= r
  {
    if h == [] then 0.0 else SquaredDeviations(h[..|h| - 1], m) + Square(h[|h| - 1] - m)
  }

  /** Population variance: the squared deviations divided by n, not n - 1. */
  function Variance(h: seq<real>): (v: real)
    requires |h| > 0
    ensures 0.0 <= v
  {
    SquaredDeviations(h, Mean(h)) / (|h| as real)
  }

  /** Volatility of the window: exactly 0 below two samples, otherwise the
      square root of the population variance; never negative when the
      square root is not. */
  function Volatility(h: seq<real>, sqrt: real -> real): (v: real)
    ensures |h| < 2 ==> v == 0.0
    ensures SqrtNonNegative(sqrt) ==> 0.0 <= v
  {
    if |h| < 2 then 0.0 else sqrt(Variance(h))
  }

  /** Adaptive smoothing factor: the exponential-decay shape clamped into
      [BetaMin, BetaMax], so it lies in that band whatever the volatility
      and whatever `exp` returns. */
  function AdaptiveBeta(volatility: real, exp: real -> real): (beta: real)
    ensures BetaMin <= beta <= BetaMax
  {
    var exponentialFactor := exp(-KDamping * volatility);
    Clamp(BetaMin + (BetaMax - BetaMin) * exponentialFactor, BetaMin, BetaMax)
  }

  /** Exponential smoothing of the global activity estimate: weight 0
      keeps the old estimate, weight 1 takes the current fraction. */
  function Blend(beta: real, aCurrent: real, aOld: real): (r: real)
    ensures beta == 0.0 ==> r == aOld
    ensures beta == 1.0 ==> r == aCurrent
  {
    beta * aCurrent + (1.0 - beta) * aOld
  }

  /** Proportional threshold step, clamped into [ThetaMin, ThetaMax]. The
      result is in the band for any input; from a threshold in the band it
      never moves against the sign of the error. */
  function ThresholdStep(theta: real, error: real): (r: real)
    ensures ThetaMin <= r <= ThetaMax
    ensures ThetaMin <= theta <= ThetaMax && 0.0 <= error ==> theta <= r
    ensures ThetaMin <= theta <= ThetaMax && error <= 0.0 ==> r <= theta
  {
    Clamp(theta + Alpha * error, ThetaMin, ThetaMax)
  }

  /** One controller update as a function of the previous state. The
      snapshot reports the new estimate and threshold, the new threshold is
      in its band, and a window within capacity stays within it. */
  function Update(s: ControllerState, active: int, total: int, libm: Libm): (u: UpdateResult)
    ensures u.data.aGlobal == u.next.aGlobal && u.data.thetaGlobal == u.next.theta
    ensures u.data.aCurrent == ActivityFraction(active, total)
    ensures u.data.error == u.next.aGlobal - ATarget
    ensures ThetaMin <= u.next.theta <= ThetaMax
    ensures |s.history| <= WindowSize ==> WellFormed(u.next)
  {
    var aCurrent := ActivityFraction(active, total);
    var history := PushWindow(s.history, aCurrent);
    var volatility := Volatility(history, libm.sqrt);
    var beta := AdaptiveBeta(volatility, libm.exp);
    var aGlobal := Blend(beta, aCurrent, s.aGlobal);
    var error := aGlobal - ATarget;
    var theta := ThresholdStep(s.theta, error);
    UpdateResult(
      HomeostasisData(aCurrent, aGlobal, theta, volatility, beta, error),
      ControllerState(history, aGlobal, theta))
  }

  /** `Update` is determined by its intermediate values: a snapshot and a
      state built step by step from them are its result. */
  lemma UpdateFromSteps(s: ControllerState, active: int, total: int, libm: Libm, data: HomeostasisData, next: ControllerState)
    requires data.aCurrent == ActivityFraction(active, total)
    requires next.history == PushWindow(s.history, data.aCurrent)
    requires data.volatility == Volatility(next.history, libm.sqrt)
    requires data.beta == AdaptiveBeta(data.volatility, libm.exp)
    requires data.aGlobal == next.aGlobal == Blend(data.beta, data.aCurrent, s.aGlobal)
    requires data.error == next.aGlobal - ATarget
    requires data.thetaGlobal == next.theta == ThresholdStep(s.theta, data.error)
    ensures Update(s, active, total, libm) == UpdateResult(data, next)
  {
  }

  class GlobalHomeostasis {
    var history: seq<real>
    var aGlobal: real
    var thetaGlobal: real

    /** The fields as a value. */
    function State(): ControllerState
      reads this
    {
      ControllerState(history, aGlobal, thetaGlobal)
    }

    ghost predicate Valid()
      reads this
    {
      WellFormed(State())
    }

    constructor ()
      ensures Valid() && State() == InitialState()
    {
      history := [];
      aGlobal := ATarget;
      thetaGlobal := InitialTheta;
    }

    /** Accumulates the sum, then the squared deviations from the mean, and
      returns the square root of their average. */
    method CalculateVolatility(sqrt: real -> real) returns (volatility: real)
      ensures volatility == Volatility(history, sqrt)
    {
      if |history| < 2 {
        return 0.0;
      }
      var sum := 0.0;
      var i := 0;
      while i < |history|
        invariant 0 <= i <= |history|
        invariant sum == Sum(history[..i])
      {
        assert history[..i + 1][..i] == history[..i];
        sum := sum + history[i];
        i := i + 1;
      }
      assert history[..i] == history;
      var mean := sum / (|history| as real);
      var sqSum := 0.0;
      i := 0;
      while i < |history|
        invariant 0 <= i <= |history|
        invariant sqSum == SquaredDeviations(history[..i], mean)
      {
        assert history[..i + 1][..i] == history[..i];
        sqSum := sqSum + Square(history[i] - mean);
        i := i + 1;
      }
      var variance := sqSum / (|history| as real);
      volatility := sqrt(variance);
    }

    /** One update: record the fraction, recompute volatility and the
      smoothing factor, blend the estimate, step and clamp the threshold. */
    method UpdateHomeostasis(active: int, total: int, libm: Libm) returns (data: HomeostasisData)
      requires Valid()
      modifies this
      ensures Valid()
      ensures UpdateResult(data, State()) == Update(old(State()), active, total, libm)
    {
      ghost var before := State();
      var aCurrent := ActivityFraction(active, total);

      history := history + [aCurrent];
      if |history| > WindowSize {
        history := history[1..];
      }
      assert history == PushWindow(before.history, aCurrent);

      var volatility := CalculateVolatility(libm.sqrt);
      var beta := AdaptiveBeta(volatility, libm.exp);

      aGlobal := Blend(beta, aCurrent, aGlobal);

      var error := aGlobal - ATarget;
      thetaGlobal := thetaGlobal + Alpha * error;
      thetaGlobal := Max(ThetaMin, Min(ThetaMax, thetaGlobal));

      data := HomeostasisData(aCurrent, aGlobal, thetaGlobal, volatility, beta, error);
      UpdateFromSteps(before, active, total, libm, data, State());
    }

    /** The current threshold, always within its band. */
    method GetCurrentThreshold() returns (theta: real)
      requires Valid()
      ensures theta == thetaGlobal
      ensures ThetaMin <= theta <= ThetaMax
    {
      theta := thetaGlobal;
    }
  }
}
