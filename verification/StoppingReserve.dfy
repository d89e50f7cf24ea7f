/** The motion guard and the stopping reserve it keeps. */
module StoppingReserve {
  import opened Numbers
  import opened WheelMotion
  import opened Braking
  import opened ExactStop

  datatype GuardSettings = GuardSettings(
    limits: Limits, commissioning: bool, continuousVerified: bool,
    actionDistance: real, stopMargin: real,
    commandTimeoutMs: int, heartbeatMs: int, latenessMs: int, feedbackTimeout: int,
    torqueLimit: real, driverTemperature: real, motorTemperature: real,
    maximumSpeed: Pair, positionRange: Pair, rawMargin: real, reduction: Pair)
  {
    predicate Valid() {
      && limits.Valid() && 0 <= commandTimeoutMs && 0 <= heartbeatMs && 0 <= latenessMs
      && 0.0 < limits.radius.left && 0.0 < limits.radius.right
      && 0.0 < reduction.left && 0.0 < reduction.right
    }

    /** How long a command may outlive its source before braking starts. */
    function Reaction(): real
      requires limits.Valid()
    {
      Max(commandTimeoutMs as real / 1000.0, heartbeatMs as real / 1000.0)
        + latenessMs as real / 1000.0 + Over(1.0, limits.hz)
    }

    /** Wheel angle set aside for stopping from `speed`. */
    function Reserve(speed: real): real
      requires limits.Valid()
    {
      Over(Mul(speed, speed), 2.0 * EffectiveDeceleration(limits)) + Mul(speed, Reaction())
    }
  }

  /** What the guard sees of one wheel. */
  datatype WheelView = WheelView(
    valid: bool, receivedAt: int, trackerValid: bool, rawStatus: nat, torque: real,
    driverTemperature: real, motorTemperature: real, outputVelocity: real, outputPosition: real,
    velocity: real, travel: real)

  datatype Verdict = Clear | FeedbackInvalid | DriverGuard | BudgetExceeded | BudgetReserve | RawBoundary | RawReserve

  function GuardSpeed(sent: real, w: WheelView): real { Max(Abs(sent), Abs(w.velocity)) }

  function WheelVerdict(g: GuardSettings, now: int, i: nat, sent: real, w: WheelView, braking: bool): Verdict
    requires g.limits.Valid() && i < 2
  {
    var reserve := g.Reserve(GuardSpeed(sent, w));
    var room := g.positionRange.At(i) - Abs(w.outputPosition);
    if !w.valid || now - w.receivedAt > g.feedbackTimeout || !w.trackerValid then FeedbackInvalid
    else if w.rawStatus != 1 || Abs(w.torque) > g.torqueLimit || w.driverTemperature > g.driverTemperature
         || w.motorTemperature > g.motorTemperature || Abs(w.outputVelocity) > g.maximumSpeed.At(i) then DriverGuard
    else if g.actionDistance > 0.0 && w.travel >= g.actionDistance then BudgetExceeded
    else if g.actionDistance > 0.0 && !braking
         && w.travel + Mul(reserve, g.limits.radius.At(i)) + g.stopMargin >= g.actionDistance then BudgetReserve
    else if g.commissioning && !g.continuousVerified && room <= g.rawMargin then RawBoundary
    else if g.commissioning && !g.continuousVerified && !braking
         && room <= Mul(reserve, g.reduction.At(i)) + g.rawMargin then RawReserve
    else Clear
  }

  /** What each verdict says of the wheel: what it complains of, in terms of the configuration. */
  ghost predicate Applies(g: GuardSettings, now: int, i: nat, sent: real, w: WheelView, braking: bool, v: Verdict)
    requires g.limits.Valid() && i < 2
  {
    var speed := Max(Abs(sent), Abs(w.velocity));
    var reaction := Max(g.commandTimeoutMs as real / 1000.0, g.heartbeatMs as real / 1000.0)
      + g.latenessMs as real / 1000.0 + Over(1.0, g.limits.hz);
    var reserve := Over(Mul(speed, speed), 2.0 * EffectiveDeceleration(g.limits)) + Mul(speed, reaction);
    match v
    case FeedbackInvalid => !w.valid || g.feedbackTimeout < now - w.receivedAt || !w.trackerValid
    case DriverGuard =>
      || w.rawStatus != 1 || g.torqueLimit < Abs(w.torque) || g.driverTemperature < w.driverTemperature
      || g.motorTemperature < w.motorTemperature || g.maximumSpeed.At(i) < Abs(w.outputVelocity)
    case BudgetExceeded => 0.0 < g.actionDistance <= w.travel
    case BudgetReserve =>
      !braking && 0.0 < g.actionDistance <= w.travel + Mul(reserve, g.limits.radius.At(i)) + g.stopMargin
    case RawBoundary =>
      g.commissioning && !g.continuousVerified && g.positionRange.At(i) <= Abs(w.outputPosition) + g.rawMargin
    case RawReserve =>
      && !braking && g.commissioning && !g.continuousVerified
      && g.positionRange.At(i) <= Abs(w.outputPosition) + Mul(reserve, g.reduction.At(i)) + g.rawMargin
    case Clear => true
  }

  function Rank(v: Verdict): nat {
    match v
    case FeedbackInvalid => 0
    case DriverGuard => 1
    case BudgetExceeded => 2
    case BudgetReserve => 3
    case RawBoundary => 4
    case RawReserve => 5
    case Clear => 6
  }

  /** The verdict on a wheel is the first one that applies; so the wheel is clear exactly when no complaint does. */
  lemma WheelVerdictIff(g: GuardSettings, now: int, i: nat, sent: real, w: WheelView, braking: bool, v: Verdict)
    requires g.limits.Valid() && i < 2
    ensures WheelVerdict(g, now, i, sent, w, braking) == v <==>
      && Applies(g, now, i, sent, w, braking, v)
      && forall u | Rank(u) < Rank(v) :: !Applies(g, now, i, sent, w, braking, u)
  {
    hide Mul;
    hide Over;
    hide EffectiveDeceleration;
    var actual := WheelVerdict(g, now, i, sent, w, braking);
    assert Applies(g, now, i, sent, w, braking, actual);
    forall u | Rank(u) < Rank(actual)
      ensures !Applies(g, now, i, sent, w, braking, u)
    {
    }
    if v != actual {
      assert Rank(v) < Rank(actual) || Rank(actual) < Rank(v);
    }
  }

  /** Reports the first wheel that is not clear, left before right. */
  method MotionGuard(g: GuardSettings, now: int, sent: Pair, wheels: seq<WheelView>, braking: bool)
    returns (verdict: Verdict)
    requires g.limits.Valid() && |wheels| == 2
    ensures verdict == Clear <==>
      forall i: nat | i < 2 :: WheelVerdict(g, now, i, sent.At(i), wheels[i], braking) == Clear
    ensures verdict != Clear ==> exists i: nat | i < 2 ::
      && verdict == WheelVerdict(g, now, i, sent.At(i), wheels[i], braking)
      && forall j: nat | j < i :: WheelVerdict(g, now, j, sent.At(j), wheels[j], braking) == Clear
  {
    for i := 0 to 2
      invariant forall j: nat | j < i :: WheelVerdict(g, now, j, sent.At(j), wheels[j], braking) == Clear
    {
      hide *;
      verdict := WheelVerdict(g, now, i, sent.At(i), wheels[i], braking);
      if verdict != Clear {
        return;
      }
    }
    verdict := Clear;
  }

  // ----- The reserve covers the faster wheel -----

  /** `TravelBound` at the wheel's own speed is within the reserve. */
  lemma ReserveCoversOwnSpeed(g: GuardSettings, x: real, speed: real)
    requires g.Valid() && 0.0 <= x <= speed
    ensures TravelBound(x, x, EffectiveDeceleration(g.limits), g.limits.hz) <= g.Reserve(speed)
  {
    hide Mul;
    hide Over;
    hide EffectiveDeceleration;
    var d, tau := EffectiveDeceleration(g.limits), Over(1.0, g.limits.hz);
    OverPositive(1.0, g.limits.hz);
    assert tau <= g.Reaction();
    MulBoth(x, speed, x, speed);
    OverOrder(Mul(x, x), Mul(speed, speed), 2.0 * d);
    MulBoth(x, speed, tau, g.Reaction());
    MulSpread(x, Over(x, 2.0 * d), tau);
    MulOver(x, x, 2.0 * d);
  }

  /**
   When the guard is clear and the wheels follow what is sent, braking from here on keeps the
   faster wheel short of its budget by the stop margin, and inside the raw position range.
   */
  lemma FasterWheelStopsInBudget(g: GuardSettings, now: int, sent: Pair, w: WheelView, i: nat, n: nat)
    requires g.Valid() && i < 2 && Abs(sent.At(i)) == sent.Fastest()
    requires WheelVerdict(g, now, i, sent.At(i), w, false) == Clear
    ensures g.actionDistance > 0.0 ==>
      w.travel + Mul(Travel(g.limits, n, sent, i), g.limits.radius.At(i)) < g.actionDistance - g.stopMargin
    ensures g.commissioning && !g.continuousVerified ==>
      Mul(Travel(g.limits, n, sent, i), g.reduction.At(i)) < g.positionRange.At(i) - Abs(w.outputPosition) - g.rawMargin
  {
    hide Mul;
    hide Travel;
    hide TravelBound;
    var speed := GuardSpeed(sent.At(i), w);
    ReserveCoversOwnSpeed(g, Abs(sent.At(i)), speed);
    TravelAtMost(g.limits, n, sent, i);
    hide GuardSettings.Reserve;
    hide EffectiveDeceleration;
    MulMono(Travel(g.limits, n, sent, i), g.Reserve(speed), g.limits.radius.At(i));
    MulMono(Travel(g.limits, n, sent, i), g.Reserve(speed), g.reduction.At(i));
  }

  /** How long a command may still be followed after its source has gone silent, before its age counts. */
  function Silence(g: GuardSettings): real {
    Max(g.commandTimeoutMs as real / 1000.0, g.heartbeatMs as real / 1000.0) + g.latenessMs as real / 1000.0
  }

  /**
   The reserve also covers a source that goes silent: a wheel that keeps its speed for as many ticks as the command
   timeout, or the heartbeat, and the lateness allow, and only then brakes, stays short of its budget by the margin.
   */
  lemma SilentSourceStopsInBudget(g: GuardSettings, now: int, sent: Pair, w: WheelView, i: nat, m: nat, n: nat)
    requires g.Valid() && i < 2 && Abs(sent.At(i)) == sent.Fastest() && g.actionDistance > 0.0
    requires WheelVerdict(g, now, i, sent.At(i), w, false) == Clear && Over(m as real, g.limits.hz) <= Silence(g)
    ensures var travel := Mul(Abs(sent.At(i)), Over(m as real, g.limits.hz)) + Travel(g.limits, n, sent, i);
      w.travel + Mul(travel, g.limits.radius.At(i)) < g.actionDistance - g.stopMargin
  {
    hide Mul;
    hide Over;
    hide Travel;
    hide EffectiveDeceleration;
    var x, speed, d := Abs(sent.At(i)), GuardSpeed(sent.At(i), w), EffectiveDeceleration(g.limits);
    var held := Over(m as real, g.limits.hz);
    TravelAtMost(g.limits, n, sent, i);
    OwnBound(x, d, g.limits.hz);
    hide TravelBound;
    OverPositive(1.0, g.limits.hz);
    HeldTime(m, g.limits.hz);
    MulBoth(x, speed, x, speed);
    OverOrder(Mul(x, x), Mul(speed, speed), 2.0 * d);
    MulBoth(x, speed, held + Over(1.0, g.limits.hz), g.Reaction());
    MulSpread(x, held, Over(1.0, g.limits.hz));
    MulMono(Mul(x, held) + Travel(g.limits, n, sent, i), g.Reserve(speed), g.limits.radius.At(i));
  }

  lemma HeldTime(m: nat, hz: real)
    requires 0.0 < hz
    ensures 0.0 <= Over(m as real, hz)
  {
  }

  /**
   The guard runs once per tick, so one more tick may speed up before braking starts. The
   stop margin covers it when the configuration leaves room for one step of acceleration.
   */
  lemma OneMoreTickStopsInBudget(g: GuardSettings, now: int, sent: Pair, requested: Pair, w: WheelView, i: nat, n: nat)
    requires g.Valid() && i < 2 && g.actionDistance > 0.0
    requires var next := g.limits.Ramp(sent, requested); Abs(next.At(i)) == next.Fastest()
    requires WheelVerdict(g, now, i, sent.At(i), w, false) == Clear
    requires MarginCoversOneStep(g, i)
    ensures var travel := Travel(g.limits, n, g.limits.Ramp(sent, requested), i);
      w.travel + Mul(travel, g.limits.radius.At(i)) < g.actionDistance
  {
    hide Mul;
    hide Over;
    hide Travel;
    hide Limits.Ramp;
    var next, speed, d := g.limits.Ramp(sent, requested), GuardSpeed(sent.At(i), w), EffectiveDeceleration(g.limits);
    var a := Over(g.limits.wheelAcceleration, g.limits.hz);
    OverPositive(g.limits.wheelAcceleration, g.limits.hz);
    WheelSlew(g.limits, sent, requested, i);
    TravelAtMost(g.limits, n, next, i);
    FastestBounds(next);
    hide Pair.Fastest;
    hide EffectiveDeceleration;
    BoundGrows(Abs(next.At(i)), speed, a, d, g.limits.hz, g.Reaction());
    var travel, slack := Travel(g.limits, n, next, i), TravelBound(a, a, d, g.limits.hz);
    hide TravelBound;
    var r := g.limits.radius.At(i);
    MulMono(travel, g.Reserve(speed) + slack, r);
    MulSpread(r, g.Reserve(speed), slack);
  }

  /** The reaction time covers one period plus the braking of one step, and the margin one step's own stop. */
  predicate MarginCoversOneStep(g: GuardSettings, i: nat)
    requires g.limits.Valid() && i < 2
  {
    var a, d := Over(g.limits.wheelAcceleration, g.limits.hz), EffectiveDeceleration(g.limits);
    && Over(1.0, g.limits.hz) + Over(a, d) <= g.Reaction()
    && Mul(TravelBound(a, a, d, g.limits.hz), g.limits.radius.At(i)) <= g.stopMargin
  }

  lemma BoundGrows(y: real, x: real, a: real, d: real, hz: real, reaction: real)
    requires 0.0 <= y <= x + a && 0.0 <= x && 0.0 < a && 0.0 < d && 0.0 < hz
    requires Over(1.0, hz) + Over(a, d) <= reaction
    ensures TravelBound(y, y, d, hz)
         <= Over(Mul(x, x), 2.0 * d) + Mul(x, reaction) + TravelBound(a, a, d, hz)
  {
    hide Mul;
    hide Over;
    var e, tau, z := 2.0 * d, Over(1.0, hz), x + a;
    OverPositive(1.0, hz);
    OwnBound(y, d, hz);
    OwnBound(a, d, hz);
    MulBoth(y, z, y, z);
    OverOrder(Mul(y, y), Mul(z, z), e);
    MulMono(y, z, tau);
    MulSwap(y, tau);
    SquareOfSum(x, a, d);
    MulSpread(tau, x, a);
    MulSpread(x, tau, Over(a, d));
    MulSwap(x, tau);
    MulSwap(a, tau);
    MulMono(tau + Over(a, d), reaction, x);
    MulSwap(x, reaction);
    MulSwap(x, tau + Over(a, d));
  }

  lemma OwnBound(x: real, d: real, hz: real)
    requires 0.0 < d && 0.0 < hz
    ensures TravelBound(x, x, d, hz) == Over(Mul(x, x), 2.0 * d) + Mul(x, Over(1.0, hz))
  {
  }

  lemma SquareOfSum(x: real, a: real, d: real)
    requires 0.0 < d
    ensures Over(Mul(x + a, x + a), 2.0 * d)
         == Over(Mul(x, x), 2.0 * d) + Mul(x, Over(a, d)) + Over(Mul(a, a), 2.0 * d)
  {
  }

  // ----- The slower wheel: exactly when its own reserve is enough -----

  /** A clear budget check at travel `a` promises that every stop ends short of the budget by the margin. */
  predicate KeepsPromise(g: GuardSettings, sent: Pair, i: nat, reserve: real, a: real, n: nat)
    requires g.limits.Valid() && i < 2
  {
    var r := g.limits.radius.At(i);
    (a + Mul(reserve, r) + g.stopMargin < g.actionDistance)
    ==> (a + Mul(Travel(g.limits, n, sent, i), r) < g.actionDistance - g.stopMargin)
  }

  /**
   The promise holds for a wheel at every travel reading exactly when its reserve covers the whole stop, or
   leaves no room for any motion. For the faster wheel that is always so; for the slower wheel it is this check.
   */
  lemma PromiseIffReserveCovers(g: GuardSettings, sent: Pair, i: nat, reserve: real)
    requires g.Valid() && i < 2
    ensures (forall a: real, n: nat | 0.0 <= a :: KeepsPromise(g, sent, i, reserve, a, n))
       <==> WholeStop(g.limits, sent, i) <= reserve
            || g.actionDistance - g.stopMargin <= Mul(reserve, g.limits.radius.At(i))
  {
    hide Mul;
    hide Travel;
    hide WholeStop;
    ReserveIsExact(g.limits, sent, i, reserve);
    var r, room := g.limits.radius.At(i), g.actionDistance - g.stopMargin;
    forall n: nat
      ensures Travel(g.limits, n, sent, i) <= reserve <==> Mul(Travel(g.limits, n, sent, i), r) <= Mul(reserve, r)
    {
      MulOrder(Travel(g.limits, n, sent, i), reserve, r);
    }
    if a: real, n: nat :| 0.0 <= a && !KeepsPromise(g, sent, i, reserve, a, n) {
      assert !(Travel(g.limits, n, sent, i) <= reserve);
    }
    if n: nat :| !(Travel(g.limits, n, sent, i) <= reserve) {
      if Mul(reserve, r) < room {
        assert !KeepsPromise(g, sent, i, reserve, Max(0.0, room - Mul(Travel(g.limits, n, sent, i), r)), n);
      }
    }
  }

  /** Body limits and geometry as shipped; the angular one governs the effective deceleration. */
  const ExampleLimits :=
    Limits(false, 100.0, 6.0, 1.0, 2.0, Pair(0.0705, 0.0705), 0.49, 0.42, 0.07, 0.14, 0.5, 0.2, 0.4)

  const ExampleSettings :=
    GuardSettings(ExampleLimits, true, true, 2.0, 0.005, 150, 500, 30, 50, 0.8, 45.0, 45.0,
                  Pair(6.0, 6.0), Pair(12.0, 12.0), 0.2, Pair(1.0, 1.0))

  /** A right turn: the left wheel at 6 rad/s, the right one at 2.53 rad/s. */
  const ExampleSpeeds := Pair(6.0, 2.53)

  function ExampleView(speed: real, travel: real): WheelView {
    WheelView(true, 0, true, 1, 0.0, 20.0, 20.0, speed, 0.0, speed, travel)
  }

  lemma ExampleFacts()
    ensures ExampleSettings.Valid() && ExampleLimits.Admits(ExampleSpeeds)
    ensures 1.39 < EffectiveDeceleration(ExampleLimits) < 1.4
  {
  }

  lemma ExampleReserves()
    ensures 0.0 <= ExampleSettings.Reserve(2.53) < 3.67 && 0.0 <= ExampleSettings.Reserve(6.0) < 16.4
  {
    ExampleFacts();
    var d := EffectiveDeceleration(ExampleLimits);
    hide EffectiveDeceleration;
    assert ExampleSettings.Reaction() == 0.54;
    OverVersus(Mul(2.53, 2.53), 2.0 * d, 2.303);
    OverVersus(Mul(6.0, 6.0), 2.0 * d, 13.0);
  }

  lemma ExampleGuardIsClear()
    ensures WheelVerdict(ExampleSettings, 0, 0, 6.0, ExampleView(6.0, 0.8), false) == Clear
    ensures WheelVerdict(ExampleSettings, 0, 1, 2.53, ExampleView(2.53, 1.736), false) == Clear
  {
    ExampleReserves();
    hide GuardSettings.Reserve;
  }

  lemma ExampleLoad()
    ensures Load(ExampleLimits, ExampleSpeeds) == 300.0
  {
    assert Periods(ExampleLimits, 0, ExampleSpeeds) == 300.0;
    assert 0.0 <= Periods(ExampleLimits, 1, ExampleSpeeds) <= 300.0;
    assert 0.0 <= Periods(ExampleLimits, 2, ExampleSpeeds) <= 300.0;
    assert 0.0 <= Periods(ExampleLimits, 3, ExampleSpeeds) <= 300.0;
    hide Periods;
    assert LoadOf(ExampleLimits, 2, ExampleSpeeds) == 300.0;
    assert LoadOf(ExampleLimits, 4, ExampleSpeeds) == 300.0;
  }

  lemma ExampleTravel()
    ensures Travel(ExampleLimits, 301, ExampleSpeeds, 1) == 3.80765
  {
    hide Travel;
    hide Load;
    ExampleLoad();
    TravelReachesWholeStop(ExampleLimits, ExampleSpeeds, 1, 301);
  }

  /**
   The slower wheel brakes in step with the faster one, and its own reserve is too short for
   that: here the guard is clear on both wheels, yet stopping takes the slower wheel past its
   whole action budget.
   */
  lemma SlowerWheelOverrunsBudget()
    ensures ExampleSettings.Valid() && ExampleLimits.Admits(ExampleSpeeds)
    ensures WheelVerdict(ExampleSettings, 0, 0, 6.0, ExampleView(6.0, 0.8), false) == Clear
    ensures WheelVerdict(ExampleSettings, 0, 1, 2.53, ExampleView(2.53, 1.736), false) == Clear
    ensures 1.736 + Mul(Travel(ExampleLimits, 301, ExampleSpeeds, 1), ExampleLimits.radius.right)
              > ExampleSettings.actionDistance
  {
    ExampleFacts();
    ExampleGuardIsClear();
    ExampleTravel();
    hide WheelVerdict;
    hide Travel;
    hide Limits.Admits;
    hide GuardSettings.Valid;
  }
}
