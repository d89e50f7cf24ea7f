/** Braking to standstill with `Ramp(Still)`, and the distance it takes. */
module Braking {
  import opened Numbers
  import opened WheelMotion

  /** The wheel deceleration that every limit of `c` allows at any curvature. */
  function EffectiveDeceleration(c: Limits): (d: real)
    requires c.Valid()
    ensures 0.0 < d
  {
    if c.bench then c.wheelDeceleration
    else
      BodyDecelerationsPositive(c);
      Min(c.wheelDeceleration, Min(LinearShare(c), AngularShare(c)))
  }

  function LinearShare(c: Limits): real
    requires c.Valid() && !c.bench
  {
    Over(c.linearDeceleration, Max(c.radius.left, c.radius.right))
  }

  function AngularShare(c: Limits): real
    requires c.Valid() && !c.bench
  {
    Over(Mul(c.angularDeceleration, c.separation), c.radius.left + c.radius.right)
  }

  lemma BodyDecelerationsPositive(c: Limits)
    requires c.Valid() && !c.bench
    ensures 0.0 < LinearShare(c) && 0.0 < AngularShare(c)
  {
  }

  /**
   A wheel deceleration is within the effective one exactly when it is within the wheels' own, and both wheels slowing
   down together by it, or turning against each other, would keep within those of the body.
   */
  lemma EffectiveDecelerationIff(c: Limits, d: real)
    requires c.Valid()
    ensures d <= EffectiveDeceleration(c) <==>
      && d <= c.wheelDeceleration
      && (!c.bench ==>
            && Mul(d, Max(c.radius.left, c.radius.right)) <= c.linearDeceleration
            && Mul(d, c.radius.left + c.radius.right) <= Mul(c.angularDeceleration, c.separation))
  {
    hide Mul;
    hide Over;
    if !c.bench {
      OverVersus(c.linearDeceleration, Max(c.radius.left, c.radius.right), d);
      OverVersus(Mul(c.angularDeceleration, c.separation), c.radius.left + c.radius.right, d);
    }
  }

  /** What one braking tick takes off the faster wheel. */
  function Notch(c: Limits): (delta: real)
    requires c.Valid()
    ensures 0.0 < delta
  {
    OverPositive(EffectiveDeceleration(c), c.hz);
    Over(EffectiveDeceleration(c), c.hz)
  }

  function Brake(c: Limits, sent: Pair): Pair
    requires c.Valid()
  {
    c.Ramp(sent, Still)
  }

  /** The pair sent after `n` braking ticks. */
  function BrakeTicks(c: Limits, n: nat, sent: Pair): Pair
    requires c.Valid()
  {
    if n == 0 then sent else BrakeTicks(c, n - 1, Brake(c, sent))
  }

  /** How far wheel `i` turns over `n` periods, the first still at `sent`, each following what was sent. */
  function Travel(c: Limits, n: nat, sent: Pair, i: nat): real
    requires c.Valid() && i < 2
  {
    if n == 0 then 0.0 else Over(Abs(sent.At(i)), c.hz) + Travel(c, n - 1, Brake(c, sent), i)
  }

  function Kept(c: Limits, sent: Pair): (m: real)
    requires c.Valid()
    ensures 0.0 <= m < 1.0
  {
    1.0 - c.Ratio(c.Axes(), sent, Still)
  }

  // ----- One braking tick -----

  lemma BrakeAimsAtStill(c: Limits, sent: Pair)
    requires c.Valid()
    ensures c.Aim(sent, Still) == Still
  {
  }

  lemma TowardStill(x: Pair, q: real)
    ensures x.Toward(Still, q) == x.Times(1.0 - q)
  {
  }

  /** Braking scales both wheels by one factor. */
  lemma BrakeScales(c: Limits, sent: Pair)
    requires c.Valid()
    ensures Brake(c, sent) == sent.Times(Kept(c, sent))
  {
    hide Limits.Ratio;
    hide Limits.Aim;
    hide Pair.Toward;
    hide Pair.Times;
    BrakeAimsAtStill(c, sent);
    TowardStill(sent, c.Ratio(c.Axes(), sent, Still));
  }

  lemma TimesSize(x: Pair, m: real, i: nat)
    requires 0.0 <= m && i < 2
    ensures x.Times(m).Fastest() == Mul(m, x.Fastest())
    ensures Abs(x.Times(m).At(i)) == Mul(m, Abs(x.At(i)))
  {
    hide Mul;
    AbsMul(m, x.left);
    AbsMul(m, x.right);
    if Abs(x.left) < Abs(x.right) {
      MulMono(Abs(x.left), Abs(x.right), m);
    } else {
      MulMono(Abs(x.right), Abs(x.left), m);
    }
  }

  /** The path keeps its curvature while braking. */
  lemma BrakeKeepsCurvature(c: Limits, sent: Pair)
    requires c.Valid()
    ensures Mul(Brake(c, sent).left, sent.right) == Mul(Brake(c, sent).right, sent.left)
  {
    hide Mul;
    hide Brake;
    var m := Kept(c, sent);
    hide Kept;
    BrakeScales(c, sent);
    MulShift(m, sent.left, sent.right);
    MulShift(m, sent.right, sent.left);
    MulSwap(sent.left, sent.right);
  }

  lemma FastestBounds(x: Pair)
    ensures 0.0 <= x.Fastest()
    ensures Abs(x.left) <= x.Fastest() && Abs(x.right) <= x.Fastest()
    ensures forall i: nat | i < 2 :: 0.0 <= Abs(x.At(i)) <= x.Fastest()
    ensures x.Fastest() == 0.0 <==> x == Still
  {
  }

  lemma ArcAtMost(s: real, x: real, p: real)
    requires Abs(x) <= s && 0.0 < p
    ensures Abs(Mul(x, p)) <= Mul(s, p)
  {
  }

  lemma ForwardAtMost(c: Limits, x: Pair, w: real)
    requires c.Valid() && !c.bench && w == Max(c.radius.left, c.radius.right)
    ensures Abs(c.Forward(x)) <= Mul(x.Fastest(), w)
  {
    hide Mul;
    hide Over;
    FastestBounds(x);
    var s, r, a, b := x.Fastest(), c.radius, Mul(x.left, c.radius.left), Mul(x.right, c.radius.right);
    hide Pair.Fastest;
    ArcAtMost(s, x.left, r.left);
    ArcAtMost(s, x.right, r.right);
    MulMono(r.left, w, s);
    MulMono(r.right, w, s);
    AbsOver(a + b, 2.0);
    OverVersus(Abs(a + b), 2.0, Mul(s, w));
    Doubled(Mul(s, w));
  }

  lemma Doubled(x: real)
    ensures Mul(x, 2.0) == x + x
  {
  }

  lemma YawAtMost(c: Limits, x: Pair, w: real)
    requires c.Valid() && !c.bench && w == Over(c.radius.left + c.radius.right, c.separation)
    ensures Abs(c.Yaw(x)) <= Mul(x.Fastest(), w)
  {
    hide Mul;
    hide Over;
    FastestBounds(x);
    var s, r, sep, a, b := x.Fastest(), c.radius, c.separation, Mul(x.left, c.radius.left),
      Mul(x.right, c.radius.right);
    hide Pair.Fastest;
    ArcAtMost(s, x.left, r.left);
    ArcAtMost(s, x.right, r.right);
    AbsOver(b - a, sep);
    OverVersus(Abs(b - a), sep, Mul(s, w));
    MulShift(s, w, sep);
    OverMul(r.left + r.right, sep);
    MulSpread(s, r.left, r.right);
  }

  /** `d` times `x` is at most `a` times `s` when `d` is at most `a/w` and `x` at most `s*w`. */
  lemma ScaledQuotient(d: real, a: real, w: real, s: real, x: real)
    requires 0.0 < w && 0.0 <= d <= Over(a, w) && 0.0 <= x <= Mul(s, w)
    ensures Mul(d, x) <= Mul(a, s)
  {
  }

  lemma YawQuotient(a: real, sep: real, r: real)
    requires 0.0 < sep && 0.0 < r && 0.0 < Over(r, sep)
    ensures Over(Mul(a, sep), r) == Over(a, Over(r, sep))
  {
  }

  /** Along every coordinate, the effective deceleration asks for no more than that coordinate may lose. */
  lemma CoordinateBrakes(c: Limits, x: Pair, k: nat)
    requires c.Valid() && k < c.Axes()
    ensures Mul(EffectiveDeceleration(c), Abs(c.Coordinate(k, x))) <= Mul(c.Deceleration(k), x.Fastest())
  {
    hide Mul;
    hide Over;
    hide Limits.Forward;
    hide Limits.Yaw;
    FastestBounds(x);
    hide Pair.Fastest;
    var d, r := EffectiveDeceleration(c), c.radius;
    if k == 2 {
      var w := Max(r.left, r.right);
      ForwardAtMost(c, x, w);
      ScaledQuotient(d, c.linearDeceleration, w, x.Fastest(), Abs(c.Forward(x)));
    } else if k == 3 {
      OverPositive(r.left + r.right, c.separation);
      var w := Over(r.left + r.right, c.separation);
      YawAtMost(c, x, w);
      YawQuotient(c.angularDeceleration, c.separation, r.left + r.right);
      ScaledQuotient(d, c.angularDeceleration, w, x.Fastest(), Abs(c.Yaw(x)));
    } else {
      MulBoth(d, c.wheelDeceleration, Abs(x.At(k)), x.Fastest());
    }
  }

  lemma StillDistance(c: Limits, x: Pair, k: nat)
    requires c.Valid() && k < c.Axes()
    ensures c.Distance(k, x, Still) == Abs(c.Coordinate(k, x))
    ensures c.Distance(k, x, Still) != 0.0 ==> c.Step(k, x, Still) == Over(c.Deceleration(k), c.hz)
  {
  }

  lemma ShareWithinStep(q: real, x: real, s: real, d: real, a: real, hz: real)
    requires 0.0 <= q && 0.0 < d && 0.0 < a && 0.0 < hz
    requires Mul(d, x) <= Mul(a, s) && Mul(q, s) <= Over(d, hz)
    ensures Mul(q, x) <= Over(a, hz)
  {
  }

  lemma Exchange(q: real, d: real, x: real)
    ensures Mul(q, Mul(d, x)) == Mul(d, Mul(q, x))
  {
  }

  /** The share of the move to standstill that the effective deceleration covers is always taken. */
  lemma BrakeShareTaken(c: Limits, sent: Pair, q: real)
    requires c.Valid() && 0.0 <= q <= 1.0 && Mul(q, sent.Fastest()) <= Notch(c)
    ensures q <= c.Ratio(c.Axes(), sent, Still)
  {
    hide Mul;
    hide Over;
    hide EffectiveDeceleration;
    hide Pair.Fastest;
    hide Limits.Coordinate;
    hide Limits.Distance;
    hide Limits.Step;
    hide Limits.Ratio;
    forall k | 0 <= k < c.Axes()
      ensures Mul(q, c.Distance(k, sent, Still)) <= c.Step(k, sent, Still)
    {
      StillDistance(c, sent, k);
      CoordinateBrakes(c, sent, k);
      MulUnit(q);
      if c.Distance(k, sent, Still) != 0.0 {
        ShareWithinStep(q, c.Distance(k, sent, Still), sent.Fastest(), EffectiveDeceleration(c),
                        c.Deceleration(k), c.hz);
      }
    }
    RatioIsGreatest(c, c.Axes(), sent, Still, q);
  }

  /** Each braking tick takes the faster wheel down by a notch, or to zero. */
  lemma BrakeContracts(c: Limits, sent: Pair)
    requires c.Valid()
    ensures Brake(c, sent).Fastest() <= Max(0.0, sent.Fastest() - Notch(c))
    ensures sent.Fastest() <= Notch(c) ==> Brake(c, sent) == Still
  {
    hide Mul;
    hide Over;
    hide Brake;
    hide Notch;
    hide Limits.Ratio;
    FastestBounds(sent);
    FastestBounds(Brake(c, sent));
    hide Pair.Fastest;
    hide Pair.Times;
    var s, delta, m := sent.Fastest(), Notch(c), Kept(c, sent);
    BrakeScales(c, sent);
    TimesSize(sent, m, 0);
    if s <= delta {
      MulUnit(s);
      BrakeShareTaken(c, sent, 1.0);
    } else {
      OverPositive(delta, s);
      OverMul(delta, s);
      MulUnit(s);
      OverVersus(delta, s, 1.0);
      BrakeShareTaken(c, sent, Over(delta, s));
      MulMono(m, 1.0 - Over(delta, s), s);
      MulSpread(s, 1.0, Over(delta, s));
    }
  }

  // ----- Braking to rest -----

  /** The number of ticks that stopping budgets brings both wheels to exactly zero. */
  lemma {:induction false} BrakeReachesRest(c: Limits, n: nat, sent: Pair)
    requires c.Valid() && sent.Fastest() <= Mul(n as real, Notch(c))
    ensures BrakeTicks(c, n, sent) == Still
  {
    hide Mul;
    hide Brake;
    hide Notch;
    FastestBounds(sent);
    hide Pair.Fastest;
    if n == 0 {
      MulUnit(Notch(c));
    } else {
      BrakeContracts(c, sent);
      MulSpread(Notch(c), n as real, 1.0);
      MulUnit(Notch(c));
      MulMono(0.0, (n - 1) as real, Notch(c));
      BrakeReachesRest(c, n - 1, Brake(c, sent));
    }
  }

  /** A tick that would have to reverse a wheel brakes, and goes on doing so until both wheels rest. */
  lemma ReversalBrakes(c: Limits, sent: Pair, requested: Pair)
    requires c.Valid() && Limits.Reverses(sent, c.Limited(requested))
    ensures c.Ramp(sent, requested) == Brake(c, sent)
    ensures Brake(c, sent) == Still || Limits.Reverses(Brake(c, sent), c.Limited(requested))
  {
    hide Mul;
    hide Limits.Limited;
    hide Limits.Ratio;
    hide Pair.Toward;
    BrakeAimsAtStill(c, sent);
    BrakeScales(c, sent);
    var t, m := c.Limited(requested), Kept(c, sent);
    hide Kept;
    MulUnit(sent.left);
    MulUnit(sent.right);
    forall i: nat | i < 2
      ensures m == 0.0 || (Mul(t.At(i), Mul(m, sent.At(i))) < 0.0 <==> Mul(t.At(i), sent.At(i)) < 0.0)
    {
      if m != 0.0 { ScaledSign(t.At(i), m, sent.At(i)); }
    }
    assert m == 0.0 || (Mul(t.At(0), Mul(m, sent.At(0))) < 0.0 <==> Mul(t.At(0), sent.At(0)) < 0.0);
    assert m == 0.0 || (Mul(t.At(1), Mul(m, sent.At(1))) < 0.0 <==> Mul(t.At(1), sent.At(1)) < 0.0);
  }

  lemma ScaledSign(a: real, m: real, x: real)
    requires 0.0 < m
    ensures Mul(a, Mul(m, x)) < 0.0 <==> Mul(a, x) < 0.0
  {
    SignsAgree(a, x);
    SignsAgree(a, Mul(m, x));
    SignsAgree(m, x);
    SignsAgree(m, -x);
    hide Mul;
    if x > 0.0 { MulPositive(m, x); }
    if x < 0.0 { NegatedPositive(m, x); }
    MulUnit(m);
  }

  lemma NegatedPositive(m: real, x: real)
    requires 0.0 < m && x < 0.0
    ensures Mul(m, x) < 0.0
  {
  }

  lemma RestReversesNothing(t: Pair)
    ensures !Limits.Reverses(Still, t)
  {
  }

  /**
   Whatever the wheels do, enough ticks with one request reach it, limited: `n` braking ticks if a wheel has to
   reverse, and then as many as the least steps need from there.
   */
  lemma {:induction false} RequestIsReached(c: Limits, n: nat, m: nat, sent: Pair, requested: Pair)
    requires c.Valid()
    requires Limits.Reverses(sent, c.Limited(requested)) ==> sent.Fastest() <= Mul(n as real, Notch(c))
    requires var t := c.Limited(requested);
      var start := if Limits.Reverses(sent, t) then Still else sent;
      forall k | 0 <= k < c.Axes() :: c.Distance(k, start, t) <= Mul(m as real, LeastStep(c))
    ensures RampTicks(c, n + m, sent, requested) == c.Limited(requested)
    decreases n
  {
    hide Mul;
    hide Over;
    hide Notch;
    hide LeastStep;
    hide Brake;
    hide Limits.Limited;
    hide Limits.Ramp;
    hide Limits.Distance;
    var t := c.Limited(requested);
    MulUnit(Notch(c));
    FastestBounds(sent);
    if n > 0 && Limits.Reverses(sent, t) {
      ReversalBrakes(c, sent, requested);
      BrakeContracts(c, sent);
      hide Pair.Fastest;
      MulSpread(Notch(c), n as real, 1.0);
      MulMono(0.0, (n - 1) as real, Notch(c));
      RestReversesNothing(t);
      RequestIsReached(c, n - 1, m, Brake(c, sent), requested);
    } else {
      RestReversesNothing(t);
      MulMono(m as real, (n + m) as real, LeastStep(c));
      RequestIsApproached(c, n + m, sent, requested);
    }
  }

  /** Distance at speed `x` while the faster wheel stops from `s`: half the stopping time, plus one period. */
  function TravelBound(x: real, s: real, d: real, hz: real): real
    requires 0.0 < d && 0.0 < hz
  {
    Mul(x, Over(s, 2.0 * d) + Over(1.0, hz))
  }

  lemma TravelBoundNonNegative(x: real, s: real, d: real, hz: real)
    requires 0.0 <= x && 0.0 <= s && 0.0 < d && 0.0 < hz
    ensures 0.0 <= TravelBound(x, s, d, hz)
  {
  }

  lemma NotchSquares(m: real, s: real, t: real, delta: real)
    requires 0.0 <= m <= 1.0 && 0.0 <= delta && 0.0 <= s && t == Mul(m, s)
    requires t <= Max(0.0, s - delta)
    ensures Mul(m, t) + 2.0 * Mul(m, delta) <= s || s == 0.0
  {
    hide Mul;
    if m == 0.0 {
      MulUnit(t);
      MulUnit(delta);
    } else if s > 0.0 {
      MulPositive(m, s);
      MulMono(t, s - delta, m);
      MulSpread(m, s, delta);
      MulMono(m, 1.0, delta);
      MulUnit(delta);
    }
  }

  /** The bound at `s` covers one period at `s` and the bound at what is left. */
  lemma BoundFolds(m: real, s: real, t: real, d: real, hz: real, delta: real)
    requires 0.0 <= s && 0.0 < d && 0.0 < hz && delta == Over(d, hz)
    requires Mul(m, t) + 2.0 * Mul(m, delta) <= s
    ensures Mul(m, Over(t, 2.0 * d) + Over(1.0, hz)) <= Over(s, 2.0 * d)
  {
  }

  lemma TravelFold(x: real, s: real, d: real, hz: real, m: real, y: real, t: real, delta: real)
    requires 0.0 <= x <= s && 0.0 < d && 0.0 < hz && 0.0 <= m <= 1.0
    requires y == Mul(m, x) && t == Mul(m, s) && delta == Over(d, hz) && t <= Max(0.0, s - delta)
    ensures Over(x, hz) + TravelBound(y, t, d, hz) <= TravelBound(x, s, d, hz)
  {
    hide Mul;
    hide Over;
    OverPositive(d, hz);
    OverScaled(x, hz);
    if s == 0.0 {
      assert x == 0.0;
      MulUnit(m);
      MulUnit(Over(1.0, hz));
      MulUnit(Over(t, 2.0 * d) + Over(1.0, hz));
      MulUnit(Over(s, 2.0 * d) + Over(1.0, hz));
    } else {
      NotchSquares(m, s, t, delta);
      BoundFolds(m, s, t, d, hz, delta);
      var a := Over(t, 2.0 * d) + Over(1.0, hz);
      MulMono(Mul(m, a), Over(s, 2.0 * d), x);
      MulSwap(m, x);
      MulShift(x, m, a);
      MulSpread(x, Over(s, 2.0 * d), Over(1.0, hz));
    }
  }

  lemma OverScaled(x: real, hz: real)
    requires 0.0 < hz
    ensures Over(x, hz) == Mul(x, Over(1.0, hz))
  {
  }

  lemma TravelOneTick(c: Limits, sent: Pair, i: nat, d: real, next: Pair)
    requires c.Valid() && i < 2 && d == EffectiveDeceleration(c) && next == Brake(c, sent)
    ensures Over(Abs(sent.At(i)), c.hz) + TravelBound(Abs(next.At(i)), next.Fastest(), d, c.hz)
         <= TravelBound(Abs(sent.At(i)), sent.Fastest(), d, c.hz)
  {
    hide Mul;
    hide Over;
    hide Brake;
    hide EffectiveDeceleration;
    hide TravelBound;
    BrakeScales(c, sent);
    BrakeContracts(c, sent);
    var m := Kept(c, sent);
    hide Kept;
    TimesSize(sent, m, i);
    FastestBounds(sent);
    hide Pair.Times;
    hide Pair.Fastest;
    TravelFold(Abs(sent.At(i)), sent.Fastest(), d, c.hz, m, Abs(next.At(i)), next.Fastest(), Notch(c));
  }

  /** Braking distance of either wheel, however long it goes on. */
  lemma {:induction false} TravelAtMost(c: Limits, n: nat, sent: Pair, i: nat)
    requires c.Valid() && i < 2
    ensures Travel(c, n, sent, i)
         <= TravelBound(Abs(sent.At(i)), sent.Fastest(), EffectiveDeceleration(c), c.hz)
  {
    hide Over;
    hide Brake;
    hide EffectiveDeceleration;
    hide TravelBound;
    FastestBounds(sent);
    hide Pair.Fastest;
    if n == 0 {
      TravelBoundNonNegative(Abs(sent.At(i)), sent.Fastest(), EffectiveDeceleration(c), c.hz);
    } else {
      TravelOneTick(c, sent, i, EffectiveDeceleration(c), Brake(c, sent));
      TravelAtMost(c, n - 1, Brake(c, sent), i);
    }
  }
}
