/**
 Speed shaping of the differential wheel pair: velocity limits, slew limits and
 reversal through zero.

 A pair of wheel speeds has four linear coordinates: the two wheel speeds and,
 outside bench mode, the body's linear and angular speed. Every limit is a bound
 on one coordinate, so each fact is proved once per coordinate.
 */
module WheelMotion {
  import opened Numbers

  datatype Pair = Pair(left: real, right: real) {
    function At(i: nat): real
      requires i < 2
    {
      if i == 0 then left else right
    }

    function With(i: nat, v: real): Pair
      requires i < 2
    {
      if i == 0 then Pair(v, right) else Pair(left, v)
    }

    function DividedBy(s: real): Pair
      requires s > 0.0
    {
      Pair(Over(left, s), Over(right, s))
    }

    function Times(m: real): Pair { Pair(Mul(m, left), Mul(m, right)) }

    /** The pair a fraction `q` of the way from this one to `to`. */
    function Toward(to: Pair, q: real): Pair {
      Pair(Blend(left, to.left, q), Blend(right, to.right, q))
    }

    function Fastest(): real { Max(Abs(left), Abs(right)) }
  }

  const Still := Pair(0.0, 0.0)

  /** The part of the loaded configuration that shapes speeds. */
  datatype Limits = Limits(
    bench: bool, hz: real,
    wheelSpeed: real, wheelAcceleration: real, wheelDeceleration: real,
    radius: Pair, separation: real,
    linearSpeed: real, linearAcceleration: real, linearDeceleration: real,
    angularSpeed: real, angularAcceleration: real, angularDeceleration: real)
  {
    /** What loading a configuration enforces. */
    predicate Valid() {
      && hz > 0.0 && wheelSpeed > 0.0 && wheelAcceleration > 0.0 && wheelDeceleration > 0.0
      && (!bench ==>
            && radius.left > 0.0 && radius.right > 0.0 && separation > 0.0
            && linearSpeed > 0.0 && linearAcceleration > 0.0 && linearDeceleration > 0.0
            && angularSpeed > 0.0 && angularAcceleration > 0.0 && angularDeceleration > 0.0)
    }

    /** How many coordinates are limited: the wheels always, the body outside bench mode. */
    function Axes(): nat { if bench then 2 else 4 }

    /** Linear speed of the body. */
    function Forward(x: Pair): real {
      Over(Mul(x.left, radius.left) + Mul(x.right, radius.right), 2.0)
    }

    /** Angular speed of the body. */
    function Yaw(x: Pair): real
      requires separation > 0.0
    {
      Over(Mul(x.right, radius.right) - Mul(x.left, radius.left), separation)
    }

    function Coordinate(k: nat, x: Pair): real
      requires Valid() && k < Axes()
    {
      if k < 2 then x.At(k) else if k == 2 then Forward(x) else Yaw(x)
    }

    function Cap(k: nat): (cap: real)
      requires Valid() && k < Axes()
      ensures cap > 0.0
    {
      if k < 2 then wheelSpeed else if k == 2 then linearSpeed else angularSpeed
    }

    function Acceleration(k: nat): (a: real)
      requires Valid() && k < Axes()
      ensures a > 0.0
    {
      if k < 2 then wheelAcceleration else if k == 2 then linearAcceleration else angularAcceleration
    }

    function Deceleration(k: nat): (a: real)
      requires Valid() && k < Axes()
      ensures a > 0.0
    {
      if k < 2 then wheelDeceleration else if k == 2 then linearDeceleration else angularDeceleration
    }

    /** The rate that governs coordinate `k` on a move: slowing and speeding up differ. */
    function Rate(k: nat, from: Pair, to: Pair): (a: real)
      requires Valid() && k < Axes()
      ensures a > 0.0
    {
      if Abs(Coordinate(k, to)) < Abs(Coordinate(k, from)) then Deceleration(k) else Acceleration(k)
    }

    /** What coordinate `k` may change by in one control period. */
    function Step(k: nat, from: Pair, to: Pair): (d: real)
      requires Valid() && k < Axes()
      ensures d > 0.0
    {
      OverPositive(Rate(k, from, to), hz);
      Over(Rate(k, from, to), hz)
    }

    function Distance(k: nat, from: Pair, to: Pair): (d: real)
      requires Valid() && k < Axes()
      ensures d >= 0.0
    {
      Abs(Coordinate(k, to) - Coordinate(k, from))
    }

    /** May a speed change from `x` to `y` in one period on the way to `aim`? Slowing and speeding up differ. */
    predicate MayChange(x: real, y: real, aim: real, acceleration: real, deceleration: real)
      requires Valid()
    {
      Abs(y - x) <= Over(if Abs(aim) < Abs(x) then deceleration else acceleration, hz)
    }

    /** What one period allows, limit by limit as configured. */
    predicate WithinRates(from: Pair, aim: Pair, next: Pair)
      requires Valid()
    {
      && MayChange(from.left, next.left, aim.left, wheelAcceleration, wheelDeceleration)
      && MayChange(from.right, next.right, aim.right, wheelAcceleration, wheelDeceleration)
      && (!bench ==>
            && MayChange(Forward(from), Forward(next), Forward(aim), linearAcceleration, linearDeceleration)
            && MayChange(Yaw(from), Yaw(next), Yaw(aim), angularAcceleration, angularDeceleration))
    }

    /** The polytope of admissible speeds. */
    predicate Admits(x: Pair)
      requires Valid()
    {
      forall k | 0 <= k < Axes() :: Abs(Coordinate(k, x)) <= Cap(k)
    }

    /** Common divisor that brings the first `n` coordinates of `t` within their caps. */
    function Scale(n: nat, t: Pair): (s: real)
      requires Valid() && n <= Axes()
      ensures s >= 1.0
    {
      if n == 0 then 1.0 else Max(Scale(n - 1, t), Over(Abs(Coordinate(n - 1, t)), Cap(n - 1)))
    }

    /** The share of the move that the first `n` slew limits allow in one tick. */
    function Ratio(n: nat, from: Pair, to: Pair): (q: real)
      requires Valid() && n <= Axes()
      ensures 0.0 < q <= 1.0
    {
      if n == 0 then 1.0
      else
        var q, d := Ratio(n - 1, from, to), Distance(n - 1, from, to);
        if d > 0.0 then
          OverPositive(Step(n - 1, from, to), d);
          Min(q, Over(Step(n - 1, from, to), d))
        else q
    }

    function Limited(t: Pair): Pair
      requires Valid()
    {
      t.DividedBy(Scale(Axes(), t))
    }

    /** Common divisor that brings the body's two speeds within their caps. */
    function BodyScale(t: Pair): (s: real)
      requires Valid() && !bench
      ensures s >= 1.0
    {
      Max(Max(1.0, Over(Abs(Forward(t)), linearSpeed)), Over(Abs(Yaw(t)), angularSpeed))
    }

    predicate BodyAdmits(t: Pair)
      requires Valid() && !bench
    {
      Abs(Forward(t)) <= linearSpeed && Abs(Yaw(t)) <= angularSpeed
    }

    static predicate Reverses(sent: Pair, target: Pair) {
      Mul(target.left, sent.left) < 0.0 || Mul(target.right, sent.right) < 0.0
    }

    /** Where one tick heads: the limited request, or standstill if a wheel would reverse. */
    function Aim(sent: Pair, requested: Pair): Pair
      requires Valid()
    {
      var target := Limited(requested);
      if Reverses(sent, target) then Still else target
    }

    /** The next commanded pair. */
    function Ramp(sent: Pair, requested: Pair): Pair
      requires Valid()
    {
      var target := Aim(sent, requested);
      sent.Toward(target, Ratio(Axes(), sent, target))
    }
  }

  // ----- What the two scalars mean -----

  lemma CoordinateDivided(c: Limits, k: nat, x: Pair, s: real)
    requires c.Valid() && k < c.Axes() && s > 0.0
    ensures c.Coordinate(k, x.DividedBy(s)) == Over(c.Coordinate(k, x), s)
  {
  }

  lemma CoordinateToward(c: Limits, k: nat, x: Pair, y: Pair, q: real)
    requires c.Valid() && k < c.Axes()
    ensures c.Coordinate(k, x.Toward(y, q)) == Blend(c.Coordinate(k, x), c.Coordinate(k, y), q)
  {
    var z := x.Toward(y, q);
    if k == 2 {
      WeightedBlend(x, y, q, c.radius.left, c.radius.right, 2.0);
    } else if k == 3 {
      WeightedBlend(x, y, q, -c.radius.left, c.radius.right, c.separation);
    }
  }

  lemma WeightedBlend(x: Pair, y: Pair, q: real, a: real, b: real, d: real)
    requires d > 0.0
    ensures var z := x.Toward(y, q);
      (z.left * a + z.right * b) / d
        == Blend((x.left * a + x.right * b) / d, (y.left * a + y.right * b) / d, q)
  {
  }

  /** `Scale` is the least divisor, from 1 up, that brings the request within the caps. */
  lemma {:induction false} ScaleIsLeast(c: Limits, n: nat, t: Pair, s: real)
    requires c.Valid() && n <= c.Axes() && s >= 1.0
    ensures c.Scale(n, t) <= s <==> forall k | 0 <= k < n :: Abs(c.Coordinate(k, t)) <= Mul(s, c.Cap(k))
  {
    hide Mul;
    hide Over;
    hide Limits.Coordinate;
    hide Limits.Cap;
    if n > 0 {
      ScaleIsLeast(c, n - 1, t, s);
      OverVersus(Abs(c.Coordinate(n - 1, t)), c.Cap(n - 1), s);
    }
  }

  /** `Ratio` is the greatest share of the move that respects every slew limit. */
  lemma {:induction false} RatioIsGreatest(c: Limits, n: nat, from: Pair, to: Pair, q: real)
    requires c.Valid() && n <= c.Axes() && 0.0 <= q <= 1.0
    ensures q <= c.Ratio(n, from, to)
       <==> forall k | 0 <= k < n :: Mul(q, c.Distance(k, from, to)) <= c.Step(k, from, to)
  {
    hide Mul;
    hide Over;
    hide Limits.Distance;
    hide Limits.Step;
    if n > 0 {
      RatioIsGreatest(c, n - 1, from, to, q);
      var d := c.Distance(n - 1, from, to);
      if d > 0.0 {
        OverVersus(c.Step(n - 1, from, to), d, q);
      } else {
        MulUnit(q);
      }
    }
  }

  lemma CoordinateWithinCap(c: Limits, k: nat, t: Pair, s: real)
    requires c.Valid() && k < c.Axes() && s >= 1.0
    ensures Abs(c.Coordinate(k, t.DividedBy(s))) <= c.Cap(k) <==> Abs(c.Coordinate(k, t)) <= Mul(s, c.Cap(k))
  {
    hide Mul;
    hide Over;
    hide Limits.Coordinate;
    hide Limits.Cap;
    CoordinateDivided(c, k, t, s);
    AbsOver(c.Coordinate(k, t), s);
    OverVersus(Abs(c.Coordinate(k, t)), s, c.Cap(k));
    MulSwap(s, c.Cap(k));
  }

  /** Dividing by `s` divides every coordinate, so the pair keeps its curvature. */
  lemma DividedIsAdmitted(c: Limits, t: Pair, s: real)
    requires c.Valid() && s >= 1.0
    ensures c.Admits(t.DividedBy(s)) <==> c.Scale(c.Axes(), t) <= s
  {
    hide Mul;
    hide Limits.Coordinate;
    hide Limits.Cap;
    hide Limits.Scale;
    hide Pair.DividedBy;
    ScaleIsLeast(c, c.Axes(), t, s);
    forall k | 0 <= k < c.Axes()
      ensures Abs(c.Coordinate(k, t.DividedBy(s))) <= c.Cap(k) <==> Abs(c.Coordinate(k, t)) <= Mul(s, c.Cap(k))
    {
      CoordinateWithinCap(c, k, t, s);
    }
  }

  /** `BodyScale` is the least divisor, from 1 up, that brings the body's speeds within their caps. */
  lemma BodyScaleIsLeast(c: Limits, t: Pair, s: real)
    requires c.Valid() && !c.bench && s >= 1.0
    ensures c.BodyAdmits(t.DividedBy(s)) <==> c.BodyScale(t) <= s
  {
    CoordinateWithinCap(c, 2, t, s);
    CoordinateWithinCap(c, 3, t, s);
    hide Mul;
    hide Over;
    OverVersus(Abs(c.Forward(t)), c.linearSpeed, s);
    OverVersus(Abs(c.Yaw(t)), c.angularSpeed, s);
    hide Pair.DividedBy;
    hide Limits.Forward;
    hide Limits.Yaw;
  }

  // ----- One tick -----

  lemma DividedByOne(t: Pair)
    ensures t.DividedBy(1.0) == t
  {
  }

  /** The limited request is admitted, and an admitted request is left as it is. */
  lemma LimitedIsAdmitted(c: Limits, t: Pair)
    requires c.Valid()
    ensures c.Admits(c.Limited(t))
    ensures c.Admits(t) ==> c.Limited(t) == t
  {
    hide Limits.Admits;
    hide Limits.Scale;
    hide Pair.DividedBy;
    DividedIsAdmitted(c, t, c.Scale(c.Axes(), t));
    DividedByOne(t);
    DividedIsAdmitted(c, t, 1.0);
  }

  lemma StillIsAdmitted(c: Limits)
    requires c.Valid()
    ensures c.Admits(Still)
    ensures forall k: nat | k < c.Axes() :: c.Coordinate(k, Still) == 0.0
  {
  }

  lemma AimIsAdmitted(c: Limits, sent: Pair, requested: Pair)
    requires c.Valid()
    ensures c.Admits(c.Aim(sent, requested))
    ensures !Limits.Reverses(sent, c.Aim(sent, requested))
  {
    hide Limits.Admits;
    hide Limits.Limited;
    LimitedIsAdmitted(c, requested);
    StillIsAdmitted(c);
  }

  lemma TowardStaysAdmitted(c: Limits, x: Pair, y: Pair, q: real)
    requires c.Valid() && c.Admits(x) && c.Admits(y) && 0.0 <= q <= 1.0
    ensures c.Admits(x.Toward(y, q))
  {
    hide Limits.Coordinate;
    hide Limits.Cap;
    hide Pair.Toward;
    hide Blend;
    forall k | 0 <= k < c.Axes()
      ensures Abs(c.Coordinate(k, x.Toward(y, q))) <= c.Cap(k)
    {
      CoordinateToward(c, k, x, y, q);
      BlendWithin(c.Coordinate(k, x), c.Coordinate(k, y), q, c.Cap(k));
    }
  }

  /** The polytope is convex, so a tick never leaves it. */
  lemma RampStaysAdmitted(c: Limits, sent: Pair, requested: Pair)
    requires c.Valid() && c.Admits(sent)
    ensures c.Admits(c.Ramp(sent, requested))
  {
    hide Limits.Admits;
    hide Limits.Aim;
    hide Limits.Ratio;
    hide Pair.Toward;
    var aim := c.Aim(sent, requested);
    AimIsAdmitted(c, sent, requested);
    TowardStaysAdmitted(c, sent, aim, c.Ratio(c.Axes(), sent, aim));
  }

  lemma TowardDistance(c: Limits, k: nat, x: Pair, y: Pair, q: real)
    requires c.Valid() && k < c.Axes() && 0.0 <= q
    ensures c.Distance(k, x, x.Toward(y, q)) == Mul(q, c.Distance(k, x, y))
  {
    hide Mul;
    hide Limits.Coordinate;
    hide Pair.Toward;
    hide Blend;
    CoordinateToward(c, k, x, y, q);
    BlendDistance(c.Coordinate(k, x), c.Coordinate(k, y), q);
  }

  lemma StepsByName(c: Limits, sent: Pair, aim: Pair, next: Pair)
    requires c.Valid()
    ensures c.WithinRates(sent, aim, next) <==>
      forall k | 0 <= k < c.Axes() :: c.Distance(k, sent, next) <= c.Step(k, sent, aim)
  {
    hide Over;
    hide Limits.Forward;
    hide Limits.Yaw;
    var steps := forall k | 0 <= k < c.Axes() :: c.Distance(k, sent, next) <= c.Step(k, sent, aim);
    if steps {
      assert c.Distance(0, sent, next) <= c.Step(0, sent, aim) && c.Distance(1, sent, next) <= c.Step(1, sent, aim);
      if !c.bench {
        assert c.Distance(2, sent, next) <= c.Step(2, sent, aim) && c.Distance(3, sent, next) <= c.Step(3, sent, aim);
      }
    }
  }

  /** Wheels and body move by no more than their own rates allow in one period. */
  lemma RampRespectsSlew(c: Limits, sent: Pair, requested: Pair)
    requires c.Valid()
    ensures c.WithinRates(sent, c.Aim(sent, requested), c.Ramp(sent, requested))
  {
    hide Mul;
    hide Limits.Distance;
    hide Limits.Step;
    hide Limits.Aim;
    hide Limits.Ratio;
    hide Pair.Toward;
    var aim := c.Aim(sent, requested);
    var q := c.Ratio(c.Axes(), sent, aim);
    RatioIsGreatest(c, c.Axes(), sent, aim, q);
    forall k | 0 <= k < c.Axes()
      ensures c.Distance(k, sent, sent.Toward(aim, q)) <= c.Step(k, sent, aim)
    {
      TowardDistance(c, k, sent, aim, q);
    }
    StepsByName(c, sent, aim, sent.Toward(aim, q));
    hide Limits.WithinRates;
  }

  /** Among all points on the way that these rates allow, a tick takes the farthest. */
  lemma RampIsFastest(c: Limits, sent: Pair, requested: Pair, q: real)
    requires c.Valid() && 0.0 <= q <= 1.0
    requires c.WithinRates(sent, c.Aim(sent, requested), sent.Toward(c.Aim(sent, requested), q))
    ensures q <= c.Ratio(c.Axes(), sent, c.Aim(sent, requested))
    ensures forall i: nat | i < 2 ::
      Abs(sent.Toward(c.Aim(sent, requested), q).At(i) - sent.At(i)) <= Abs(c.Ramp(sent, requested).At(i) - sent.At(i))
  {
    hide Mul;
    hide Limits.Distance;
    hide Limits.Step;
    hide Limits.Aim;
    hide Limits.Ratio;
    hide Blend;
    var aim := c.Aim(sent, requested);
    var most := c.Ratio(c.Axes(), sent, aim);
    StepsByName(c, sent, aim, sent.Toward(aim, q));
    hide Limits.WithinRates;
    forall k | 0 <= k < c.Axes()
      ensures Mul(q, c.Distance(k, sent, aim)) <= c.Step(k, sent, aim)
    {
      TowardDistance(c, k, sent, aim, q);
    }
    RatioIsGreatest(c, c.Axes(), sent, aim, q);
    forall i: nat | i < 2
      ensures Abs(sent.Toward(aim, q).At(i) - sent.At(i)) <= Abs(sent.Toward(aim, most).At(i) - sent.At(i))
    {
      BlendDistance(sent.At(i), aim.At(i), q);
      BlendDistance(sent.At(i), aim.At(i), most);
      MulMono(q, most, Abs(aim.At(i) - sent.At(i)));
    }
  }

  /** No wheel changes direction within a tick, and its speed stays between where it was and where it heads. */
  lemma RampKeepsSign(c: Limits, sent: Pair, requested: Pair, i: nat)
    requires c.Valid() && i < 2
    ensures var next, aim := c.Ramp(sent, requested).At(i), c.Aim(sent, requested).At(i);
      && Mul(sent.At(i), next) >= 0.0
      && Min(Abs(sent.At(i)), Abs(aim)) <= Abs(next) <= Max(Abs(sent.At(i)), Abs(aim))
  {
    hide Mul;
    hide Blend;
    hide Limits.Aim;
    hide Limits.Ratio;
    var aim := c.Aim(sent, requested);
    AimIsAdmitted(c, sent, requested);
    MulSwap(sent.At(i), aim.At(i));
    BlendSameSign(sent.At(i), aim.At(i), c.Ratio(c.Axes(), sent, aim));
  }

  /** A wheel speeds up by at most its acceleration, and slows down by at most its deceleration. */
  lemma WheelSlew(c: Limits, sent: Pair, requested: Pair, i: nat)
    requires c.Valid() && i < 2
    ensures Abs(c.Ramp(sent, requested).At(i)) - Abs(sent.At(i)) <= Over(c.wheelAcceleration, c.hz)
    ensures Abs(sent.At(i)) - Abs(c.Ramp(sent, requested).At(i)) <= Over(c.wheelDeceleration, c.hz)
  {
    hide Mul;
    hide Over;
    hide Limits.Ramp;
    hide Limits.Aim;
    hide Limits.Forward;
    hide Limits.Yaw;
    RampRespectsSlew(c, sent, requested);
    RampKeepsSign(c, sent, requested, i);
    OverPositive(c.wheelAcceleration, c.hz);
    OverPositive(c.wheelDeceleration, c.hz);
  }

  /** On the way to `aim`, size grows by at most the acceleration; on the same side it shrinks by the deceleration. */
  lemma SizeChanges(c: Limits, x: real, aim: real, q: real, y: real, acceleration: real, deceleration: real)
    requires c.Valid() && 0.0 <= q <= 1.0 && y == Blend(x, aim, q) && 0.0 < acceleration && 0.0 < deceleration
    requires c.MayChange(x, y, aim, acceleration, deceleration)
    ensures Abs(y) - Abs(x) <= Over(acceleration, c.hz)
    ensures Mul(x, aim) >= 0.0 ==> Abs(x) - Abs(y) <= Over(deceleration, c.hz)
  {
    hide Mul;
    hide Over;
    OverPositive(acceleration, c.hz);
    OverPositive(deceleration, c.hz);
    BlendBetween(x, aim, q);
    if Mul(x, aim) >= 0.0 { BlendSameSign(x, aim, q); }
    hide Blend;
  }

  /** Outside bench mode the same holds of the body's two speeds, with the body's own rates. */
  lemma BodySlew(c: Limits, sent: Pair, requested: Pair)
    requires c.Valid() && !c.bench
    ensures var next, aim := c.Ramp(sent, requested), c.Aim(sent, requested);
      && Abs(c.Forward(next)) - Abs(c.Forward(sent)) <= Over(c.linearAcceleration, c.hz)
      && Abs(c.Yaw(next)) - Abs(c.Yaw(sent)) <= Over(c.angularAcceleration, c.hz)
      && (Mul(c.Forward(sent), c.Forward(aim)) >= 0.0 ==>
            Abs(c.Forward(sent)) - Abs(c.Forward(next)) <= Over(c.linearDeceleration, c.hz))
      && (Mul(c.Yaw(sent), c.Yaw(aim)) >= 0.0 ==>
            Abs(c.Yaw(sent)) - Abs(c.Yaw(next)) <= Over(c.angularDeceleration, c.hz))
  {
    hide Mul;
    hide Over;
    hide Blend;
    hide Limits.Aim;
    hide Limits.Ratio;
    hide Pair.Toward;
    hide Limits.Forward;
    hide Limits.Yaw;
    var aim := c.Aim(sent, requested);
    var q := c.Ratio(c.Axes(), sent, aim);
    RampRespectsSlew(c, sent, requested);
    CoordinateToward(c, 2, sent, aim, q);
    CoordinateToward(c, 3, sent, aim, q);
    var next := c.Ramp(sent, requested);
    SizeChanges(c, c.Forward(sent), c.Forward(aim), q, c.Forward(next), c.linearAcceleration, c.linearDeceleration);
    SizeChanges(c, c.Yaw(sent), c.Yaw(aim), q, c.Yaw(next), c.angularAcceleration, c.angularDeceleration);
  }

  /** The admitted speeds, limit by limit as configured. */
  lemma AdmitsIff(c: Limits, x: Pair)
    requires c.Valid()
    ensures c.Admits(x) <==>
      && Abs(x.left) <= c.wheelSpeed && Abs(x.right) <= c.wheelSpeed
      && (!c.bench ==> Abs(c.Forward(x)) <= c.linearSpeed && Abs(c.Yaw(x)) <= c.angularSpeed)
  {
    hide Limits.Forward;
    hide Limits.Yaw;
    if c.Admits(x) {
      assert Abs(c.Coordinate(0, x)) <= c.Cap(0) && Abs(c.Coordinate(1, x)) <= c.Cap(1);
      if !c.bench { assert Abs(c.Coordinate(2, x)) <= c.Cap(2) && Abs(c.Coordinate(3, x)) <= c.Cap(3); }
    }
  }

  // ----- Where a tick heads -----

  lemma SignOver(a: real, b: real, s: real)
    requires 0.0 < s
    ensures Mul(Over(a, s), b) < 0.0 <==> Mul(a, b) < 0.0
  {
    hide Mul;
    hide Over;
    OverOrder(a, 0.0, s);
    OverOrder(0.0, a, s);
    OverZero(s);
    SignsAgree(Over(a, s), b);
    SignsAgree(a, b);
  }

  /** A tick heads for the request, divided by the least common scale, unless a wheel has to reverse; then for rest. */
  lemma AimIsRequest(c: Limits, sent: Pair, requested: Pair)
    requires c.Valid()
    ensures c.Aim(sent, requested) ==
      if Mul(requested.left, sent.left) < 0.0 || Mul(requested.right, sent.right) < 0.0 then Still
      else requested.DividedBy(c.Scale(c.Axes(), requested))
    ensures c.Admits(requested) && Mul(requested.left, sent.left) >= 0.0 && Mul(requested.right, sent.right) >= 0.0 ==>
      c.Aim(sent, requested) == requested
  {
    hide Mul;
    hide Over;
    hide Limits.Admits;
    hide Limits.Scale;
    LimitedIsAdmitted(c, requested);
    SignOver(requested.left, sent.left, c.Scale(c.Axes(), requested));
    SignOver(requested.right, sent.right, c.Scale(c.Axes(), requested));
  }

  /** What every coordinate may change by in one period, whichever rate governs. */
  function LeastStep(c: Limits): (d: real)
    requires c.Valid()
    ensures 0.0 < d
  {
    var wheel := Min(c.wheelAcceleration, c.wheelDeceleration);
    var rate := if c.bench then wheel
                else Min(wheel, Min(Min(c.linearAcceleration, c.linearDeceleration),
                                    Min(c.angularAcceleration, c.angularDeceleration)));
    OverPositive(rate, c.hz);
    Over(rate, c.hz)
  }

  lemma LeastStepIsLeast(c: Limits, k: nat, from: Pair, to: Pair)
    requires c.Valid() && k < c.Axes()
    ensures LeastStep(c) <= c.Step(k, from, to)
  {
    hide Limits.Coordinate;
    hide Over;
    var wheel := Min(c.wheelAcceleration, c.wheelDeceleration);
    var rate := if c.bench then wheel
                else Min(wheel, Min(Min(c.linearAcceleration, c.linearDeceleration),
                                    Min(c.angularAcceleration, c.angularDeceleration)));
    OverOrder(rate, c.Rate(k, from, to), c.hz);
  }

  /** `n` ticks that are asked for the same speeds. */
  function RampTicks(c: Limits, n: nat, sent: Pair, requested: Pair): Pair
    requires c.Valid()
  {
    if n == 0 then sent else RampTicks(c, n - 1, c.Ramp(sent, requested), requested)
  }

  /** With `n` steps to go, one tick takes at least its share of the way. */
  lemma ShareOfSteps(c: Limits, n: nat, sent: Pair, t: Pair)
    requires c.Valid() && n > 0
    requires forall k | 0 <= k < c.Axes() :: c.Distance(k, sent, t) <= Mul(n as real, LeastStep(c))
    ensures Over(1.0, n as real) <= c.Ratio(c.Axes(), sent, t)
  {
    hide Mul;
    hide Over;
    hide LeastStep;
    hide Limits.Distance;
    hide Limits.Step;
    var q, m := Over(1.0, n as real), n as real;
    OverVersus(1.0, m, 1.0);
    MulUnit(m);
    OverPositive(1.0, m);
    forall k | 0 <= k < c.Axes()
      ensures Mul(q, c.Distance(k, sent, t)) <= c.Step(k, sent, t)
    {
      LeastStepIsLeast(c, k, sent, t);
      MulMono(c.Distance(k, sent, t), Mul(m, LeastStep(c)), q);
      MulShift(q, m, LeastStep(c));
      OverMul(1.0, m);
      MulUnit(LeastStep(c));
    }
    RatioIsGreatest(c, c.Axes(), sent, t, q);
  }

  lemma RestOfWay(x: real, y: real, q: real)
    requires 0.0 <= q <= 1.0
    ensures Abs(y - Blend(x, y, q)) == Mul(1.0 - q, Abs(y - x))
  {
  }

  /** What is left is at most one step less for each tick. */
  lemma DistanceShrinks(c: Limits, k: nat, n: nat, sent: Pair, t: Pair, q: real)
    requires c.Valid() && k < c.Axes() && n > 0 && Over(1.0, n as real) <= q <= 1.0
    requires c.Distance(k, sent, t) <= Mul(n as real, LeastStep(c))
    ensures c.Distance(k, sent.Toward(t, q), t) <= Mul((n - 1) as real, LeastStep(c))
  {
    hide Mul;
    hide Over;
    hide Blend;
    hide LeastStep;
    hide Limits.Coordinate;
    hide Pair.Toward;
    var m, d := n as real, LeastStep(c);
    CoordinateToward(c, k, sent, t, q);
    OverPositive(1.0, m);
    RestOfWay(c.Coordinate(k, sent), c.Coordinate(k, t), q);
    MulMono(c.Distance(k, sent, t), Mul(m, d), 1.0 - q);
    MulShift(1.0 - q, m, d);
    MulMono(1.0 - q, 1.0 - Over(1.0, m), m);
    MulSpread(m, 1.0, Over(1.0, m));
    OverMul(1.0, m);
    MulUnit(m);
    MulMono(Mul(1.0 - q, m), m - 1.0, d);
  }

  /** Without a reversal, ticks reach the limited request as soon as their least steps cover every coordinate's way. */
  lemma {:induction false} RequestIsApproached(c: Limits, n: nat, sent: Pair, requested: Pair)
    requires c.Valid() && !Limits.Reverses(sent, c.Limited(requested))
    requires forall k | 0 <= k < c.Axes() ::
               c.Distance(k, sent, c.Limited(requested)) <= Mul(n as real, LeastStep(c))
    ensures RampTicks(c, n, sent, requested) == c.Limited(requested)
  {
    hide Mul;
    hide Over;
    hide LeastStep;
    hide Limits.Limited;
    hide Limits.Ratio;
    hide Pair.Toward;
    hide Limits.Forward;
    hide Limits.Yaw;
    var t := c.Limited(requested);
    if n == 0 {
      MulUnit(LeastStep(c));
      assert c.Distance(0, sent, t) == 0.0 && c.Distance(1, sent, t) == 0.0;
    } else {
      var q := c.Ratio(c.Axes(), sent, t);
      ShareOfSteps(c, n, sent, t);
      var next := c.Ramp(sent, requested);
      assert next == sent.Toward(t, q);
      forall k | 0 <= k < c.Axes()
        ensures c.Distance(k, next, t) <= Mul((n - 1) as real, LeastStep(c))
      {
        DistanceShrinks(c, k, n, sent, t, q);
      }
      TowardDoesNotReverse(sent, t, q);
      RequestIsApproached(c, n - 1, next, requested);
    }
  }

  lemma TowardDoesNotReverse(x: Pair, t: Pair, q: real)
    requires !Limits.Reverses(x, t) && 0.0 <= q <= 1.0
    ensures !Limits.Reverses(x.Toward(t, q), t)
  {
    hide Mul;
    forall i: nat | i < 2
      ensures Mul(t.At(i), x.Toward(t, q).At(i)) >= 0.0
    {
      SignsAgree(t.At(i), x.At(i));
      BlendBetween(x.At(i), t.At(i), q);
      SignsAgree(t.At(i), Blend(x.At(i), t.At(i), q));
    }
    assert Mul(t.At(0), x.Toward(t, q).At(0)) >= 0.0 && Mul(t.At(1), x.Toward(t, q).At(1)) >= 0.0;
  }

  // ----- Whole runs -----

  /** `speeds` is what successive ticks send when asked for `requests`. */
  predicate IsRun(c: Limits, speeds: seq<Pair>, requests: seq<Pair>)
    requires c.Valid()
  {
    && |speeds| == |requests| + 1
    && speeds[0] == Still
    && forall j | 0 <= j < |requests| :: speeds[j + 1] == c.Ramp(speeds[j], requests[j])
  }

  lemma {:induction false} RunStaysAdmitted(c: Limits, speeds: seq<Pair>, requests: seq<Pair>, j: nat)
    requires c.Valid() && IsRun(c, speeds, requests) && j < |speeds|
    ensures c.Admits(speeds[j])
  {
    hide Limits.Ramp;
    hide Limits.Admits;
    if j == 0 {
      StillIsAdmitted(c);
    } else {
      RunStaysAdmitted(c, speeds, requests, j - 1);
      RampStaysAdmitted(c, speeds[j - 1], requests[j - 1]);
    }
  }

  /** Between two ticks that drive a wheel in opposite directions lies a tick at exactly zero. */
  lemma {:induction false} ReversalPassesZero(c: Limits, speeds: seq<Pair>, requests: seq<Pair>, i: nat, a: nat, b: nat)
    returns (z: nat)
    requires c.Valid() && IsRun(c, speeds, requests) && i < 2
    requires a < b < |speeds| && Mul(speeds[a].At(i), speeds[b].At(i)) < 0.0
    ensures a < z < b && speeds[z].At(i) == 0.0
    decreases b - a
  {
    hide Mul;
    hide Limits.Ramp;
    RampKeepsSign(c, speeds[a], requests[a], i);
    var x, y, w := speeds[a].At(i), speeds[a + 1].At(i), speeds[b].At(i);
    SignsAgree(x, w);
    if y == 0.0 {
      z := a + 1;
    } else {
      SignsAgree(x, y);
      SignsAgree(y, w);
      z := ReversalPassesZero(c, speeds, requests, i, a + 1, b);
    }
  }
}
