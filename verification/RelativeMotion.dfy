/** Relative goals: from a goal to two wheel targets, the speeds that approach them, and what was reached. */
module RelativeMotion {
  import opened Numbers
  import opened WheelMotion
  import opened Braking

  /** A travelled distance in metres, a body turn in radians, or one angle of both wheels. */
  datatype Kind = Distance | Turn | WheelAngle

  datatype Geometry = Geometry(radius: Pair, separation: real) {
    predicate Valid() { 0.0 < radius.left && 0.0 < radius.right && 0.0 < separation }
  }

  /** Only a wheel angle makes sense without a calibrated geometry. */
  predicate Suits(kind: Kind, g: Geometry) { kind == WheelAngle || g.Valid() }

  /** Wheel angle per unit of the goal. */
  function WheelScale(kind: Kind, g: Geometry, i: nat): real
    requires Suits(kind, g) && i < 2
  {
    match kind
    case Distance => Over(1.0, g.radius.At(i))
    case Turn => if i == 0 then -Over(g.separation, 2.0 * g.radius.left) else Over(g.separation, 2.0 * g.radius.right)
    case WheelAngle => 1.0
  }

  function Target(kind: Kind, g: Geometry, value: real): Pair
    requires Suits(kind, g)
  {
    Pair(Mul(value, WheelScale(kind, g, 0)), Mul(value, WheelScale(kind, g, 1)))
  }

  /** What a pair of wheel angles amounts to, in the unit of the goal. */
  function Measured(kind: Kind, g: Geometry, travel: Pair): real
    requires Suits(kind, g)
  {
    match kind
    case Distance => Over(Mul(travel.left, g.radius.left) + Mul(travel.right, g.radius.right), 2.0)
    case Turn => Over(Mul(travel.right, g.radius.right) - Mul(travel.left, g.radius.left), g.separation)
    case WheelAngle => Over(travel.left + travel.right, 2.0)
  }

  /** The motion that `Measured` leaves out: yaw of a distance, advance of a turn, skew of a wheel angle. */
  function Stray(kind: Kind, g: Geometry, travel: Pair): real
    requires Suits(kind, g)
  {
    match kind
    case Distance => Mul(travel.right, g.radius.right) - Mul(travel.left, g.radius.left)
    case Turn => Mul(travel.right, g.radius.right) + Mul(travel.left, g.radius.left)
    case WheelAngle => travel.right - travel.left
  }

  /** The body's speeds that the wheel limits speak of are the distance and the turn that the goals measure. */
  lemma BodySpeedsAreMeasured(c: Limits, x: Pair)
    requires c.Valid() && !c.bench
    ensures c.Forward(x) == Measured(Distance, Geometry(c.radius, c.separation), x)
    ensures c.Yaw(x) == Measured(Turn, Geometry(c.radius, c.separation), x)
  {
  }

  /** A wheel angle of `value / r` rolls the wheel by `value`. */
  lemma DistanceArc(value: real, r: real)
    requires 0.0 < r
    ensures Mul(Mul(value, Over(1.0, r)), r) == value
  {
  }

  /** Turning the body by `value` rolls a wheel over half of that angle's arc across the track. */
  lemma TurnArc(value: real, a: real, r: real)
    requires 0.0 < r
    ensures Mul(Mul(value, Over(a, 2.0 * r)), r) == Over(Mul(value, a), 2.0)
    ensures Mul(Mul(value, -Over(a, 2.0 * r)), r) == -Over(Mul(value, a), 2.0)
  {
  }

  lemma Halves(x: real)
    ensures Over(x, 2.0) == x / 2.0 && Over(x + x, 2.0) == x
  {
  }

  /** The wheel targets of a goal measure as that goal, with nothing astray. */
  lemma TargetMeasures(kind: Kind, g: Geometry, value: real)
    requires Suits(kind, g)
    ensures Measured(kind, g, Target(kind, g, value)) == value
    ensures Stray(kind, g, Target(kind, g, value)) == 0.0
  {
    hide Mul;
    hide Over;
    match kind
    case Distance =>
      DistanceArc(value, g.radius.left);
      DistanceArc(value, g.radius.right);
      Halves(value);
    case Turn =>
      TurnArc(value, g.separation, g.radius.left);
      TurnArc(value, g.separation, g.radius.right);
      Halves(Mul(value, g.separation));
      OverMul(value, g.separation);
    case WheelAngle =>
      MulUnit(value);
      Halves(value);
  }

  /** A wheel angle is `m / r` exactly when it rolls the wheel by `m`. */
  lemma ArcIff(m: real, r: real, t: real)
    requires 0.0 < r
    ensures Mul(m, Over(1.0, r)) == t <==> m == Mul(t, r)
  {
    hide Mul;
    hide Over;
    DistanceArc(m, r);
    MulOver(t, r, r);
    MulOver(Mul(t, r), 1.0, r);
    MulUnit(Mul(t, r));
    OverMul(t, r);
  }

  lemma TurnIff(m: real, a: real, r: real, t: real)
    requires 0.0 < r
    ensures Mul(m, Over(a, 2.0 * r)) == t <==> Mul(m, a) == 2.0 * Mul(t, r)
    ensures Mul(m, -Over(a, 2.0 * r)) == t <==> Mul(m, a) == -2.0 * Mul(t, r)
  {
    TurnArc(m, a, r);
    Halves(Mul(m, a));
    SameArc(Mul(m, Over(a, 2.0 * r)), t, r);
    SameArc(Mul(m, -Over(a, 2.0 * r)), t, r);
    hide Mul;
    hide Over;
  }

  lemma SameArc(x: real, t: real, r: real)
    requires 0.0 < r
    ensures Mul(x, r) == Mul(t, r) <==> x == t
  {
    MulOrder(x, t, r);
    MulOrder(t, x, r);
    hide Mul;
  }

  /** A pair of wheel angles is the target of what it measures exactly when nothing is astray. */
  lemma MeasuredTargetsIff(kind: Kind, g: Geometry, travel: Pair)
    requires Suits(kind, g)
    ensures Target(kind, g, Measured(kind, g, travel)) == travel <==> Stray(kind, g, travel) == 0.0
  {
    hide Mul;
    hide Over;
    var m := Measured(kind, g, travel);
    match kind
    case Distance =>
      ArcIff(m, g.radius.left, travel.left);
      ArcIff(m, g.radius.right, travel.right);
      Halves(Mul(travel.left, g.radius.left) + Mul(travel.right, g.radius.right));
    case Turn =>
      TurnIff(m, g.separation, g.radius.left, travel.left);
      TurnIff(m, g.separation, g.radius.right, travel.right);
      OverMul(Mul(travel.right, g.radius.right) - Mul(travel.left, g.radius.left), g.separation);
    case WheelAngle =>
      MulUnit(m);
      Halves(travel.left + travel.right);
  }

  // ----- Speed caps -----

  function RawCap(kind: Kind, g: Geometry, maxSpeed: real, i: nat): real
    requires Suits(kind, g) && i < 2
  {
    Mul(maxSpeed, Abs(WheelScale(kind, g, i)))
  }

  /** Both caps scaled by one factor so that neither exceeds the wheel speed limit. */
  function Caps(kind: Kind, g: Geometry, maxSpeed: real, wheelSpeed: real): Pair
    requires Suits(kind, g) && 0.0 < maxSpeed
  {
    var raw := Pair(RawCap(kind, g, maxSpeed, 0), RawCap(kind, g, maxSpeed, 1));
    RawCapsPositive(kind, g, maxSpeed);
    raw.Times(Min(1.0, Over(wheelSpeed, Max(raw.left, raw.right))))
  }

  lemma RawCapsPositive(kind: Kind, g: Geometry, maxSpeed: real)
    requires Suits(kind, g) && 0.0 < maxSpeed
    ensures forall i: nat | i < 2 :: 0.0 < RawCap(kind, g, maxSpeed, i)
  {
  }

  /** Caps are positive, within the wheel limit, and in the proportion of the targets. */
  lemma CapsKeepProportion(kind: Kind, g: Geometry, value: real, maxSpeed: real, wheelSpeed: real)
    requires Suits(kind, g) && 0.0 < maxSpeed && 0.0 < wheelSpeed
    ensures var caps, target := Caps(kind, g, maxSpeed, wheelSpeed), Target(kind, g, value);
      && 0.0 < caps.left <= wheelSpeed && 0.0 < caps.right <= wheelSpeed
      && Mul(caps.left, Abs(target.right)) == Mul(caps.right, Abs(target.left))
  {
    hide Mul;
    hide Over;
    hide WheelScale;
    var raw := Pair(RawCap(kind, g, maxSpeed, 0), RawCap(kind, g, maxSpeed, 1));
    RawCapsPositive(kind, g, maxSpeed);
    var top := Max(raw.left, raw.right);
    OverPositive(wheelSpeed, top);
    var q := Min(1.0, Over(wheelSpeed, top));
    OverMul(wheelSpeed, top);
    MulMono(q, Over(wheelSpeed, top), top);
    MulMono(raw.left, top, q);
    MulMono(raw.right, top, q);
    MulPositive(q, raw.left);
    MulPositive(q, raw.right);
    var a, b := Abs(WheelScale(kind, g, 0)), Abs(WheelScale(kind, g, 1));
    AbsMul(value, WheelScale(kind, g, 0));
    AbsMul(value, WheelScale(kind, g, 1));
    FourFactors(q, maxSpeed, a, Abs(value), b);
  }

  lemma FourFactors(q: real, m: real, a: real, v: real, b: real)
    ensures Mul(Mul(q, Mul(m, a)), Mul(v, b)) == Mul(Mul(q, Mul(m, b)), Mul(v, a))
  {
  }

  // ----- Accepting a goal -----

  datatype Goal = Goal(kind: Kind, value: real, maxSpeed: real, timeout: real)

  datatype Mode = Bench | Base | Relative | Commissioning

  datatype PlanSettings = PlanSettings(
    mode: Mode, limits: Limits, geometry: Geometry, benchTravel: real, tolerance: real,
    actionDistance: real, stopMargin: real, continuousVerified: bool,
    positionRange: Pair, rawMargin: real, direction: Pair, reduction: Pair,
    settleMs: int, timeoutFactor: real, timeoutMargin: real, maxTimeout: real)
  {
    predicate Valid() {
      && limits.Valid() && limits.bench == (mode == Bench)
      && (mode != Bench ==> geometry == Geometry(limits.radius, limits.separation))
      && 0.0 < tolerance && 0 <= settleMs && 1.0 <= timeoutFactor && 0.0 < timeoutMargin && 0.0 <= maxTimeout
    }

    function WheelAcceleration(i: nat): (a: real)
      requires Valid() && i < 2
    {
      if mode == Bench then limits.wheelAcceleration
      else
        Min(limits.wheelAcceleration,
            Min(Over(limits.linearAcceleration, geometry.radius.At(i)),
                Over(Mul(limits.angularAcceleration, geometry.separation), 2.0 * geometry.radius.At(i))))
    }

    /** Time the wheel needs at least: the way at its cap, plus reaching the cap and stopping from it. */
    function WheelTime(i: nat, target: real, cap: real): real
      requires Valid() && i < 2
    {
      Duration(Abs(target), cap) + Duration(cap, WheelAcceleration(i)) + Duration(cap, EffectiveDeceleration(limits))
    }

    function Estimate(target: Pair, caps: Pair): real
      requires Valid()
    {
      Max(0.0, Max(WheelTime(0, target.left, caps.left), WheelTime(1, target.right, caps.right)))
        + 2.0 * settleMs as real / 1000.0
    }
  }

  /** A quotient of durations; a cap or rate of zero is refused before it is used. */
  function Duration(a: real, b: real): real { if b == 0.0 then 0.0 else a / b }

  datatype Refusal = BenchTravel | BelowResolution | ActionBudget | RawBoundary | DeadlineTooLong | DeadlineTooShort

  datatype Check = Pass | Fail(why: Refusal)

  datatype Plan = Planned(target: Pair, caps: Pair, deadline: real) | Refused(why: Refusal)

  /** Why the target of wheel `i` is refused in the first pass over the wheels, if it is. */
  function TargetRefusal(s: PlanSettings, target: real): Check
  {
    if s.mode == Bench && Abs(target) > s.benchTravel * 0.8 then Fail(BenchTravel)
    else if Abs(target) <= 2.0 * s.tolerance then Fail(BelowResolution)
    else Pass
  }

  /** Why commissioning refuses wheel `i`, if it does. */
  function CommissioningRefusal(s: PlanSettings, i: nat, target: real, output: real): Check
    requires i < 2
  {
    var raw := output + Mul(Mul(target, s.direction.At(i)), s.reduction.At(i));
    if s.mode != Commissioning then Pass
    else if Mul(Abs(target), s.geometry.radius.At(i)) + s.stopMargin >= s.actionDistance then Fail(ActionBudget)
    else if !s.continuousVerified && Abs(raw) + s.rawMargin >= s.positionRange.At(i) then Fail(RawBoundary)
    else Pass
  }

  /** The deadline of a goal: as asked for, or from the estimate when none is. */
  function Deadline(s: PlanSettings, goal: Goal, estimate: real): real {
    if goal.timeout > 0.0 then goal.timeout else Mul(estimate, s.timeoutFactor) + s.timeoutMargin
  }

  /** What a goal's wheel targets need at least. */
  function EstimateOf(s: PlanSettings, goal: Goal): real
    requires s.Valid() && Suits(goal.kind, s.geometry) && 0.0 < goal.maxSpeed
  {
    s.Estimate(Target(goal.kind, s.geometry, goal.value),
      Caps(goal.kind, s.geometry, goal.maxSpeed, s.limits.wheelSpeed))
  }

  /** Why the deadline of a goal is refused, if it is. */
  function DeadlineRefusal(s: PlanSettings, goal: Goal, estimate: real): Check {
    var deadline := Deadline(s, goal, estimate);
    if s.maxTimeout > 0.0 && deadline > s.maxTimeout then Fail(DeadlineTooLong)
    else if estimate >= deadline then Fail(DeadlineTooShort)
    else Pass
  }

  /**
   The checks of one wheel, as configured: the target is farther than the resolution and within the bench's travel,
   and while commissioning within the action budget and the raw range.
   */
  lemma TargetPassesIff(s: PlanSettings, i: nat, target: real, output: real)
    requires i < 2
    ensures TargetRefusal(s, target).Pass? && CommissioningRefusal(s, i, target, output).Pass? <==>
      && 2.0 * s.tolerance < Abs(target)
      && (s.mode == Bench ==> Abs(target) <= 0.8 * s.benchTravel)
      && (s.mode == Commissioning ==>
            && Mul(Abs(target), s.geometry.radius.At(i)) + s.stopMargin < s.actionDistance
            && (!s.continuousVerified ==>
                  Abs(output + Mul(Mul(target, s.direction.At(i)), s.reduction.At(i))) + s.rawMargin
                    < s.positionRange.At(i)))
  {
    hide Mul;
  }

  /**
   While commissioning on an unverified raw range, a planned motion keeps its margin to the ends of the range all
   the way, if it starts with that margin.
   */
  lemma WayStaysInRange(s: PlanSettings, i: nat, target: real, output: real, q: real)
    requires i < 2 && s.mode == Commissioning && !s.continuousVerified && 0.0 <= q <= 1.0
    requires CommissioningRefusal(s, i, target, output).Pass? && Abs(output) + s.rawMargin < s.positionRange.At(i)
    ensures Abs(output + Mul(q, Mul(Mul(target, s.direction.At(i)), s.reduction.At(i)))) + s.rawMargin
          < s.positionRange.At(i)
  {
    var way := Mul(Mul(target, s.direction.At(i)), s.reduction.At(i));
    BlendBetween(output, output + way, q);
    hide Mul;
  }

  /** Speeding up both wheels at their accelerations takes the body straight ahead, or round, within its own limits. */
  lemma WheelAccelerationsFit(s: PlanSettings)
    requires s.Valid() && s.mode != Bench
    ensures var a := Pair(s.WheelAcceleration(0), s.WheelAcceleration(1));
      && 0.0 < a.left <= s.limits.wheelAcceleration && 0.0 < a.right <= s.limits.wheelAcceleration
      && Measured(Distance, s.geometry, a) <= s.limits.linearAcceleration
      && Measured(Turn, s.geometry, Pair(-a.left, a.right)) <= s.limits.angularAcceleration
  {
    var a, g := Pair(s.WheelAcceleration(0), s.WheelAcceleration(1)), s.geometry;
    AccelerationFits(s, 0);
    AccelerationFits(s, 1);
    hide Mul;
    hide Over;
    hide PlanSettings.WheelAcceleration;
    MulSpread(g.radius.left, 0.0, a.left);
    MulUnit(g.radius.left);
    OverVersus(Mul(a.left, g.radius.left) + Mul(a.right, g.radius.right), 2.0, s.limits.linearAcceleration);
    OverVersus(Mul(a.right, g.radius.right) + Mul(a.left, g.radius.left), g.separation, s.limits.angularAcceleration);
    Doubled(s.limits.linearAcceleration);
  }

  lemma AccelerationFits(s: PlanSettings, i: nat)
    requires s.Valid() && s.mode != Bench && i < 2
    ensures s.WheelAcceleration(i) <= s.limits.wheelAcceleration
    ensures Mul(s.WheelAcceleration(i), s.geometry.radius.At(i)) <= s.limits.linearAcceleration
    ensures 2.0 * Mul(s.WheelAcceleration(i), s.geometry.radius.At(i))
         <= Mul(s.limits.angularAcceleration, s.geometry.separation)
  {
    var a, r := s.WheelAcceleration(i), s.geometry.radius.At(i);
    var turn := Mul(s.limits.angularAcceleration, s.geometry.separation);
    assert a <= Over(s.limits.linearAcceleration, r) && a <= Over(turn, 2.0 * r);
    hide Mul;
    hide Over;
    hide PlanSettings.WheelAcceleration;
    OverVersus(s.limits.linearAcceleration, r, a);
    OverVersus(turn, 2.0 * r, a);
    MulSpread(a, r, r);
  }

  /** Way covered in `time` by speeding up to `cap`, keeping it, and braking to rest. */
  function Covered(cap: real, acceleration: real, deceleration: real, time: real): real
    requires 0.0 < acceleration && 0.0 < deceleration
  {
    Mul(cap, time) - Over(Mul(cap, cap), 2.0 * acceleration) - Over(Mul(cap, cap), 2.0 * deceleration)
  }

  /** The estimate leaves a wheel enough time: to reach its cap, to brake from it, and to cover its whole target. */
  lemma EstimateIsEnough(s: PlanSettings, i: nat, target: Pair, caps: Pair)
    requires s.Valid() && i < 2 && 0.0 < caps.left && 0.0 < caps.right
    ensures var time, cap, d := s.Estimate(target, caps), caps.At(i), EffectiveDeceleration(s.limits);
      && Over(cap, s.WheelAcceleration(i)) + Over(cap, d) <= time
      && Abs(target.At(i)) <= Covered(cap, s.WheelAcceleration(i), d, time)
      && 2.0 * s.settleMs as real / 1000.0 <= time
  {
    var time, cap := s.Estimate(target, caps), caps.At(i);
    var a, d := s.WheelAcceleration(i), EffectiveDeceleration(s.limits);
    WayInTime(Abs(target.At(i)), cap, a, d, s.WheelTime(i, target.At(i), cap));
    assert s.WheelTime(i, target.At(i), cap) <= time;
    hide EffectiveDeceleration;
    hide PlanSettings.WheelAcceleration;
    hide PlanSettings.WheelTime;
    hide PlanSettings.Estimate;
    MulMono(s.WheelTime(i, target.At(i), cap), time, cap);
    hide Mul;
    hide Over;
  }

  lemma WayInTime(way: real, cap: real, a: real, d: real, time: real)
    requires 0.0 <= way && 0.0 < cap && 0.0 < a && 0.0 < d
    requires time == Duration(way, cap) + Duration(cap, a) + Duration(cap, d)
    ensures Over(cap, a) + Over(cap, d) <= time && way <= Covered(cap, a, d, time)
  {
    assert Duration(way, cap) == Over(way, cap) && Duration(cap, a) == Over(cap, a) && Duration(cap, d) == Over(cap, d);
    hide Duration;
    MulOver(cap, cap, a);
    MulOver(cap, cap, d);
    OverMul(way, cap);
    HalfSquare(cap, a);
    HalfSquare(cap, d);
    OverVersus(way, cap, 0.0);
    MulUnit(cap);
    hide Over;
    MulSpread(cap, Over(way, cap) + Over(cap, a), Over(cap, d));
    MulSpread(cap, Over(way, cap), Over(cap, a));
    hide Mul;
  }

  lemma HalfSquare(cap: real, a: real)
    requires 0.0 < a && 0.0 < cap
    ensures 0.0 <= Over(Mul(cap, cap), 2.0 * a) <= Over(Mul(cap, cap), a)
  {
  }

  /**
   Plans a goal from the two raw output positions exactly when every check passes, and refuses it for one that fails.
   */
  method PlanRelative(s: PlanSettings, goal: Goal, output: Pair) returns (plan: Plan)
    requires s.Valid() && Suits(goal.kind, s.geometry) && 0.0 < goal.maxSpeed && 0.0 <= goal.timeout
    ensures var target := Target(goal.kind, s.geometry, goal.value);
      plan.Planned? <==>
        && (forall i: nat | i < 2 :: TargetRefusal(s, target.At(i)).Pass?)
        && (forall i: nat | i < 2 :: CommissioningRefusal(s, i, target.At(i), output.At(i)).Pass?)
        && DeadlineRefusal(s, goal, EstimateOf(s, goal)).Pass?
    ensures plan.Planned? ==>
      && plan.target == Target(goal.kind, s.geometry, goal.value)
      && plan.caps == Caps(goal.kind, s.geometry, goal.maxSpeed, s.limits.wheelSpeed)
      && plan.deadline == Deadline(s, goal, EstimateOf(s, goal))
    ensures plan.Refused? ==>
      var target := Target(goal.kind, s.geometry, goal.value);
      || (exists i: nat | i < 2 :: TargetRefusal(s, target.At(i)) == Fail(plan.why))
      || (exists i: nat | i < 2 :: CommissioningRefusal(s, i, target.At(i), output.At(i)) == Fail(plan.why))
      || DeadlineRefusal(s, goal, EstimateOf(s, goal)) == Fail(plan.why)
  {
    hide Mul;
    hide Over;
    hide WheelScale;
    hide TargetRefusal;
    hide CommissioningRefusal;
    hide PlanSettings.WheelAcceleration;
    hide EffectiveDeceleration;
    hide Duration;
    var target, caps := Still, Still;
    for i := 0 to 2
      invariant forall j: nat | j < i ::
        && target.At(j) == Target(goal.kind, s.geometry, goal.value).At(j)
        && caps.At(j) == RawCap(goal.kind, s.geometry, goal.maxSpeed, j)
        && TargetRefusal(s, target.At(j)).Pass?
    {
      var scale := WheelScale(goal.kind, s.geometry, i);
      target := target.With(i, Mul(goal.value, scale));
      caps := caps.With(i, Mul(goal.maxSpeed, Abs(scale)));
      var check := TargetRefusal(s, target.At(i));
      if check.Fail? {
        assert check == TargetRefusal(s, Target(goal.kind, s.geometry, goal.value).At(i));
        return Refused(check.why);
      }
    }
    assert target == Target(goal.kind, s.geometry, goal.value) by {
      assert target.At(0) == target.left && target.At(1) == target.right;
    }
    assert TargetRefusal(s, target.At(0)).Pass? && TargetRefusal(s, target.At(1)).Pass?;
    assert caps.At(0) == caps.left && caps.At(1) == caps.right;
    RawCapsPositive(goal.kind, s.geometry, goal.maxSpeed);
    var ratio := Min(1.0, Over(s.limits.wheelSpeed, Max(caps.left, caps.right)));
    caps := Pair(Mul(ratio, caps.left), Mul(ratio, caps.right));
    var minimumTime := 0.0;
    for i := 0 to 2
      invariant forall j: nat | j < i :: CommissioningRefusal(s, j, target.At(j), output.At(j)).Pass?
      invariant minimumTime == if i == 0 then 0.0
                               else if i == 1 then Max(0.0, s.WheelTime(0, target.left, caps.left))
                               else Max(Max(0.0, s.WheelTime(0, target.left, caps.left)),
                                 s.WheelTime(1, target.right, caps.right))
    {
      minimumTime := Max(minimumTime, s.WheelTime(i, target.At(i), caps.At(i)));
      var check := CommissioningRefusal(s, i, target.At(i), output.At(i));
      if check.Fail? {
        return Refused(check.why);
      }
    }
    var estimate := minimumTime + 2.0 * s.settleMs as real / 1000.0;
    assert estimate == EstimateOf(s, goal);
    var deadline := if goal.timeout > 0.0 then goal.timeout else Mul(estimate, s.timeoutFactor) + s.timeoutMargin;
    if s.maxTimeout > 0.0 && deadline > s.maxTimeout {
      return Refused(DeadlineTooLong);
    }
    if estimate >= deadline {
      return Refused(DeadlineTooShort);
    }
    return Planned(target, caps, deadline);
  }

  /** A deadline that was not asked for is never too short; an accepted one leaves time beyond the estimate. */
  lemma OnlyAskedDeadlineIsTooShort(s: PlanSettings, goal: Goal, estimate: real)
    requires s.Valid() && 0.0 <= estimate
    ensures DeadlineRefusal(s, goal, estimate) == Fail(DeadlineTooShort) ==> 0.0 < goal.timeout <= estimate
    ensures DeadlineRefusal(s, goal, estimate).Pass? <==>
      && estimate < Deadline(s, goal, estimate)
      && (0.0 < s.maxTimeout ==> Deadline(s, goal, estimate) <= s.maxTimeout)
  {
    hide Mul;
    MulMono(1.0, s.timeoutFactor, estimate);
    MulUnit(estimate);
  }

  // ----- Approaching the targets -----

  datatype Approach = Approach(positionGain: real, syncGain: real, tolerance: real) {
    predicate Valid() { 0.0 < positionGain && 0.0 < syncGain && 0.0 < tolerance }

    /** Convergence is to half the tolerance; the rest is left for releasing the drivers. */
    function Overshoot(error: real): real { Max(0.0, Abs(error) - tolerance * 0.5) }
  }

  function Progress(actual: real, target: real): real
    requires target != 0.0
  {
    actual / target
  }

  /** `root` is the square root of twice the acceleration times the way left to brake in. */
  predicate IsBrakingSpeed(root: real, acceleration: real, a: Approach, error: real) {
    0.0 <= root && Mul(root, root) == 2.0 * Mul(acceleration, a.Overshoot(error))
  }

  function CopySign(size: real, of: real): real { if of < 0.0 then -Abs(size) else Abs(size) }

  /** `x` counted positive in the direction given. */
  function Along(x: real, direction: real): real { if direction < 0.0 then -x else x }

  function WheelVelocity(target: Pair, actual: Pair, caps: Pair, root: real, a: Approach, i: nat): real
    requires i < 2 && target.left != 0.0 && target.right != 0.0 && 0.0 <= caps.At(i) && 0.0 <= root
  {
    var error := target.At(i) - actual.At(i);
    if Abs(error) <= a.tolerance * 0.5 then 0.0
    else
      var p := Pair(Progress(actual.left, target.left), Progress(actual.right, target.right));
      var sync := Mul(Mul(a.syncGain, target.At(i)), p.At(1 - i) - p.At(i));
      var desired := Mul(a.positionGain, error) + sync;
      CopySign(Clamp(Along(desired, error), 0.0, Min(caps.At(i), root)), error)
  }

  /**
   An approach speed never exceeds its cap, never points away from the target, and outside
   half the tolerance can still be braked within the remaining error; inside it is zero.
   */
  lemma VelocityIsBounded(target: Pair, actual: Pair, caps: Pair, root: real, acceleration: real, a: Approach, i: nat)
    requires a.Valid() && i < 2 && target.left != 0.0 && target.right != 0.0 && 0.0 <= caps.At(i)
    requires IsBrakingSpeed(root, acceleration, a, target.At(i) - actual.At(i))
    ensures var v, error := WheelVelocity(target, actual, caps, root, a, i), target.At(i) - actual.At(i);
      && Abs(v) <= caps.At(i)
      && Mul(v, error) >= 0.0
      && Mul(v, v) <= 2.0 * Mul(acceleration, a.Overshoot(error))
      && (Abs(error) <= a.tolerance * 0.5 ==> v == 0.0)
  {
    hide Mul;
    hide Progress;
    var v, error := WheelVelocity(target, actual, caps, root, a, i), target.At(i) - actual.At(i);
    hide Approach.Overshoot;
    assert Abs(v) <= Min(caps.At(i), root) && (v == 0.0 || (v < 0.0) == (error < 0.0));
    hide WheelVelocity;
    SignsAgree(v, error);
    SignsAgree(v, v);
    AbsMul(v, v);
    MulBoth(Abs(v), root, Abs(v), root);
  }

  /** While a wheel is ahead in progress, the other's synchronisation term does not slow the one behind. */
  lemma LaggingWheelIsNotHeldBack(target: Pair, actual: Pair, caps: Pair, root: real, a: Approach, i: nat)
    requires a.Valid() && i < 2 && target.left != 0.0 && target.right != 0.0 && 0.0 <= caps.At(i) && 0.0 <= root
    requires var error := target.At(i) - actual.At(i);
      a.tolerance * 0.5 < Abs(error) && Mul(error, target.At(i)) >= 0.0
    requires var p := Pair(Progress(actual.left, target.left), Progress(actual.right, target.right));
      p.At(i) <= p.At(1 - i)
    ensures var error := target.At(i) - actual.At(i);
      Min(Mul(a.positionGain, Abs(error)), Min(caps.At(i), root))
        <= Abs(WheelVelocity(target, actual, caps, root, a, i))
  {
    hide Mul;
    hide Progress;
    var error, t := target.At(i) - actual.At(i), target.At(i);
    var lead := Progress(actual.At(1 - i), target.At(1 - i)) - Progress(actual.At(i), t);
    var weight := Mul(a.syncGain, t);
    SignsAgree(error, t);
    SignsAgree(a.syncGain, t);
    SignsAgree(weight, lead);
    MulUnit(weight);
    AbsMul(a.positionGain, error);
    SignsAgree(a.positionGain, error);
    assert Along(Mul(weight, lead), error) >= 0.0;
    assert Along(Mul(a.positionGain, error), error) == Mul(a.positionGain, Abs(error));
  }

  /**
   Outside half the tolerance a wheel on its way approaches at the proportional speed, more when it lags and less
   when it leads by the difference in progress, cut to what its cap and the way left to brake in allow.
   */
  lemma VelocityBalances(target: Pair, actual: Pair, caps: Pair, root: real, a: Approach, i: nat)
    requires a.Valid() && i < 2 && target.left != 0.0 && target.right != 0.0 && 0.0 <= caps.At(i) && 0.0 <= root
    requires var error := target.At(i) - actual.At(i);
      a.tolerance * 0.5 < Abs(error) && Mul(error, target.At(i)) >= 0.0
    ensures var p := Pair(actual.left / target.left, actual.right / target.right);
      var error, behind := target.At(i) - actual.At(i), p.At(1 - i) - p.At(i);
      var wanted := Mul(a.positionGain, Abs(error)) + Mul(Mul(a.syncGain, Abs(target.At(i))), behind);
      Abs(WheelVelocity(target, actual, caps, root, a, i)) == Max(0.0, Min(wanted, Min(caps.At(i), root)))
  {
    var p := Pair(actual.left / target.left, actual.right / target.right);
    var error, t, behind := target.At(i) - actual.At(i), target.At(i), p.At(1 - i) - p.At(i);
    SignsAgree(error, t);
    SignedSync(a.syncGain, t, behind);
    AbsMul(a.positionGain, error);
    SignsAgree(a.positionGain, error);
    hide Mul;
  }

  /** Where the way left to brake in is what limits it, that is all a wheel leaves: it can just still stop there. */
  lemma BrakingIsTight(target: Pair, actual: Pair, caps: Pair, root: real, acceleration: real, a: Approach, i: nat)
    requires a.Valid() && i < 2 && target.left != 0.0 && target.right != 0.0 && 0.0 <= caps.At(i)
    requires var error := target.At(i) - actual.At(i);
      && a.tolerance * 0.5 < Abs(error) && Mul(error, target.At(i)) >= 0.0
      && IsBrakingSpeed(root, acceleration, a, error)
    requires var p := Pair(actual.left / target.left, actual.right / target.right);
      root <= caps.At(i)
      && root <= Mul(a.positionGain, Abs(target.At(i) - actual.At(i)))
                  + Mul(Mul(a.syncGain, Abs(target.At(i))), p.At(1 - i) - p.At(i))
    ensures var v, error := WheelVelocity(target, actual, caps, root, a, i), target.At(i) - actual.At(i);
      Mul(v, v) == 2.0 * Mul(acceleration, Abs(error) - 0.5 * a.tolerance)
  {
    VelocityBalances(target, actual, caps, root, a, i);
    var v := WheelVelocity(target, actual, caps, root, a, i);
    SignsAgree(v, v);
    AbsMul(v, v);
    hide WheelVelocity;
    hide Mul;
  }

  lemma SignedSync(gain: real, t: real, behind: real)
    ensures Mul(Mul(gain, t), behind) ==
      if t < 0.0 then -Mul(Mul(gain, Abs(t)), behind) else Mul(Mul(gain, Abs(t)), behind)
  {
  }

  // ----- What success means -----

  /** Both wheels within `tolerance` of their targets, as the final observation demands. */
  predicate Reached(target: Pair, travel: Pair, tolerance: real) {
    Abs(target.left - travel.left) <= tolerance && Abs(target.right - travel.right) <= tolerance
  }

  /** The largest error of the goal that a reached pair of targets allows. */
  function GoalTolerance(kind: Kind, g: Geometry, tolerance: real): real
    requires Suits(kind, g)
  {
    match kind
    case Distance => Over(Mul(tolerance, g.radius.left + g.radius.right), 2.0)
    case Turn => Over(Mul(tolerance, g.radius.left + g.radius.right), g.separation)
    case WheelAngle => tolerance
  }

  /** Success bounds the error of the goal itself, by kind. */
  lemma SuccessBoundsGoalError(kind: Kind, g: Geometry, value: real, travel: Pair, tolerance: real)
    requires Suits(kind, g) && Reached(Target(kind, g, value), travel, tolerance)
    ensures Abs(value - Measured(kind, g, travel)) <= GoalTolerance(kind, g, tolerance)
  {
    hide Mul;
    hide Over;
    var t := Target(kind, g, value);
    TargetMeasures(kind, g, value);
    hide Target;
    var e := Pair(t.left - travel.left, t.right - travel.right);
    DifferenceMeasures(kind, g, t, travel, e);
    if kind != WheelAngle {
      ArcAtMost(tolerance, e.left, g.radius.left);
      ArcAtMost(tolerance, e.right, g.radius.right);
      MulSpread(tolerance, g.radius.left, g.radius.right);
      var a, b, most := Mul(e.left, g.radius.left), Mul(e.right, g.radius.right),
        Mul(tolerance, g.radius.left + g.radius.right);
      AbsOver(a + b, 2.0);
      OverOrder(Abs(a + b), most, 2.0);
      AbsOver(b - a, g.separation);
      OverOrder(Abs(b - a), most, g.separation);
    } else {
      AbsOver(e.left + e.right, 2.0);
      OverVersus(Abs(e.left + e.right), 2.0, tolerance);
      Doubled(tolerance);
    }
  }

  /** No smaller bound would do: some reached pair of wheel angles is off by just that much. */
  lemma GoalToleranceIsReached(kind: Kind, g: Geometry, value: real, tolerance: real) returns (travel: Pair)
    requires Suits(kind, g) && 0.0 <= tolerance
    ensures Reached(Target(kind, g, value), travel, tolerance)
    ensures value - Measured(kind, g, travel) == GoalTolerance(kind, g, tolerance)
  {
    hide Mul;
    hide Over;
    var t := Target(kind, g, value);
    TargetMeasures(kind, g, value);
    hide Target;
    var e := Pair(if kind == Turn then -tolerance else tolerance, tolerance);
    travel := Pair(t.left - e.left, t.right - e.right);
    DifferenceMeasures(kind, g, t, travel, e);
    MulSpread(tolerance, g.radius.left, g.radius.right);
    if kind == Turn {
      MulNegated(tolerance, g.radius.left);
    }
    if kind == WheelAngle {
      Halved(tolerance);
    }
  }

  lemma MulNegated(x: real, y: real)
    ensures Mul(-x, y) == -Mul(x, y)
  {
  }

  lemma Halved(x: real)
    ensures Over(x + x, 2.0) == x
  {
  }

  /** Standing still is the target of a goal of nothing. */
  lemma RestIsNoMotion(kind: Kind, g: Geometry)
    requires Suits(kind, g)
    ensures Target(kind, g, 0.0) == Still
  {
    assert Mul(0.0, WheelScale(kind, g, 0)) == 0.0 && Mul(0.0, WheelScale(kind, g, 1)) == 0.0;
  }

  lemma DifferenceMeasures(kind: Kind, g: Geometry, t: Pair, travel: Pair, e: Pair)
    requires Suits(kind, g) && e == Pair(t.left - travel.left, t.right - travel.right)
    ensures Measured(kind, g, t) - Measured(kind, g, travel) == Measured(kind, g, e)
  {
  }
}
