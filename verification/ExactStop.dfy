/**
 How far each wheel goes on a whole stop, exactly. What decides it is the number of periods
 the slowest of the limited coordinates needs: every braking tick takes one off that number.
 */
module ExactStop {
  import opened Numbers
  import opened WheelMotion
  import opened Braking

  /** Periods that coordinate `k` needs to stop on its own. */
  function Periods(c: Limits, k: nat, x: Pair): (p: real)
    requires c.Valid() && k < c.Axes()
    ensures 0.0 <= p
  {
    Over(Mul(c.hz, Abs(c.Coordinate(k, x))), c.Deceleration(k))
  }

  /** The most periods that any of the first `n` coordinates needs. */
  function LoadOf(c: Limits, n: nat, x: Pair): (p: real)
    requires c.Valid() && n <= c.Axes()
    ensures 0.0 <= p
  {
    if n == 0 then 0.0 else Max(LoadOf(c, n - 1, x), Periods(c, n - 1, x))
  }

  function Load(c: Limits, x: Pair): (p: real)
    requires c.Valid()
    ensures 0.0 <= p
  {
    LoadOf(c, c.Axes(), x)
  }

  // ----- A braking tick takes one off the load -----

  lemma PeriodsTimes(c: Limits, k: nat, x: Pair, m: real)
    requires c.Valid() && k < c.Axes() && 0.0 <= m
    ensures Periods(c, k, x.Times(m)) == Mul(m, Periods(c, k, x))
  {
    hide Mul;
    hide Over;
    hide Limits.Coordinate;
    hide Limits.Deceleration;
    hide Pair.Times;
    CoordinateTimes(c, k, x, m);
    var y := Abs(c.Coordinate(k, x));
    AbsMul(m, c.Coordinate(k, x));
    MulShift(c.hz, m, y);
    MulSwap(c.hz, m);
    MulShift(m, c.hz, y);
    MulOver(m, Mul(c.hz, y), c.Deceleration(k));
  }

  lemma CoordinateTimes(c: Limits, k: nat, x: Pair, m: real)
    requires c.Valid() && k < c.Axes()
    ensures c.Coordinate(k, x.Times(m)) == Mul(m, c.Coordinate(k, x))
  {
    if k == 2 {
      WeightedTimes(x, m, c.radius.left, c.radius.right, 2.0);
    } else if k == 3 {
      WeightedTimes(x, m, -c.radius.left, c.radius.right, c.separation);
    }
  }

  lemma WeightedTimes(x: Pair, m: real, a: real, b: real, d: real)
    requires d > 0.0
    ensures var z := x.Times(m); (z.left * a + z.right * b) / d == m * ((x.left * a + x.right * b) / d)
  {
  }

  /** Scaling both wheels scales the load. */
  lemma {:induction false} LoadTimes(c: Limits, n: nat, x: Pair, m: real)
    requires c.Valid() && n <= c.Axes() && 0.0 <= m
    ensures LoadOf(c, n, x.Times(m)) == Mul(m, LoadOf(c, n, x))
  {
    hide Mul;
    hide Periods;
    hide Pair.Times;
    if n == 0 {
      MulUnit(m);
    } else {
      var a, b := LoadOf(c, n - 1, x), Periods(c, n - 1, x);
      LoadTimes(c, n - 1, x, m);
      PeriodsTimes(c, n - 1, x, m);
      if a < b { MulMono(a, b, m); } else { MulMono(b, a, m); }
    }
  }

  /** The step of one coordinate toward rest is one period's worth of it. */
  lemma StepIsOnePeriod(c: Limits, k: nat, x: Pair)
    requires c.Valid() && k < c.Axes() && 0.0 < c.Distance(k, x, Still)
    ensures 0.0 < Periods(c, k, x) && Mul(Over(c.Step(k, x, Still), c.Distance(k, x, Still)), Periods(c, k, x)) == 1.0
  {
    StillDistance(c, x, k);
    var d, y := c.Deceleration(k), Abs(c.Coordinate(k, x));
    hide Limits.Coordinate;
    hide Limits.Deceleration;
    hide Limits.Distance;
    hide Limits.Step;
    hide Limits.Rate;
    Reciprocals(d, c.hz, y);
  }

  lemma Reciprocals(d: real, hz: real, y: real)
    requires 0.0 < d && 0.0 < hz && 0.0 < y
    ensures 0.0 < Over(Mul(hz, y), d) && Mul(Over(Over(d, hz), y), Over(Mul(hz, y), d)) == 1.0
  {
    hide Mul;
    hide Over;
    MulPositive(hz, y);
    OverPositive(Mul(hz, y), d);
    var b := Over(Over(d, hz), y);
    OverMul(Over(d, hz), y);
    OverMul(d, hz);
    MulShift(b, y, hz);
    MulSwap(hz, y);
    MulOver(b, Mul(hz, y), d);
    OverMul(1.0, d);
    MulUnit(d);
  }

  lemma SmallerShareOfLarger(q: real, l: real, r: real, p: real)
    requires 0.0 < q && 0.0 < l && 0.0 < r && 0.0 < p && Mul(q, l) == 1.0 == Mul(r, p)
    ensures Mul(Min(q, r), Max(l, p)) == 1.0
  {
  }

  /** The share of the way to rest that one tick takes is one over the load, and all of it for a load up to one. */
  lemma {:induction false} RatioIsOneOverLoad(c: Limits, n: nat, x: Pair)
    requires c.Valid() && n <= c.Axes()
    ensures Mul(c.Ratio(n, x, Still), Max(1.0, LoadOf(c, n, x))) == 1.0
  {
    hide Mul;
    hide Over;
    hide Limits.Distance;
    hide Limits.Step;
    MulUnit(1.0);
    if n > 0 {
      RatioIsOneOverLoad(c, n - 1, x);
      var q, l, k := c.Ratio(n - 1, x, Still), Max(1.0, LoadOf(c, n - 1, x)), n - 1;
      if 0.0 < c.Distance(k, x, Still) {
        StepIsOnePeriod(c, k, x);
        OverPositive(c.Step(k, x, Still), c.Distance(k, x, Still));
        SmallerShareOfLarger(q, l, Over(c.Step(k, x, Still), c.Distance(k, x, Still)), Periods(c, k, x));
      } else {
        RestingNeedsNothing(c, k, x);
      }
    }
  }

  lemma RestingNeedsNothing(c: Limits, k: nat, x: Pair)
    requires c.Valid() && k < c.Axes() && c.Distance(k, x, Still) == 0.0
    ensures Periods(c, k, x) == 0.0
  {
    StillDistance(c, x, k);
    hide Limits.Coordinate;
    MulUnit(c.hz);
    OverZero(c.Deceleration(k));
  }

  /** Whatever limit governs, a braking tick takes exactly one off the load, or stops. */
  lemma BrakeIsExact(c: Limits, sent: Pair)
    requires c.Valid()
    ensures Load(c, Brake(c, sent)) == Max(0.0, Load(c, sent) - 1.0)
  {
    hide Mul;
    hide Brake;
    hide Pair.Times;
    hide LoadOf;
    hide Limits.Ratio;
    BrakeScales(c, sent);
    var q, l, m := c.Ratio(c.Axes(), sent, Still), Load(c, sent), Kept(c, sent);
    LoadTimes(c, c.Axes(), sent, m);
    RatioIsOneOverLoad(c, c.Axes(), sent);
    MulSpread(l, 1.0, q);
    MulUnit(l);
    MulUnit(q);
    MulSwap(l, m);
    MulSwap(l, q);
  }

  /** Only a pair at rest has no load. */
  lemma LoadPositive(c: Limits, sent: Pair)
    requires c.Valid()
    ensures Load(c, sent) == 0.0 <==> sent == Still
  {
    hide Mul;
    hide Over;
    if sent != Still {
      var k := if sent.left != 0.0 then 0 else 1;
      MulPositive(c.hz, Abs(c.Coordinate(k, sent)));
      OverPositive(Mul(c.hz, Abs(c.Coordinate(k, sent))), c.Deceleration(k));
      LoadCovers(c, c.Axes(), k, sent);
    } else {
      hide Limits.Coordinate;
      RestHasNoLoad(c, c.Axes());
    }
  }

  lemma {:induction false} RestHasNoLoad(c: Limits, n: nat)
    requires c.Valid() && n <= c.Axes()
    ensures LoadOf(c, n, Still) == 0.0
  {
    hide Periods;
    hide Limits.Distance;
    if n > 0 {
      StillIsAdmitted(c);
      StillDistance(c, Still, n - 1);
      RestingNeedsNothing(c, n - 1, Still);
      RestHasNoLoad(c, n - 1);
    }
  }

  lemma {:induction false} LoadCovers(c: Limits, n: nat, k: nat, x: Pair)
    requires c.Valid() && k < n <= c.Axes()
    ensures Periods(c, k, x) <= LoadOf(c, n, x)
  {
    hide Periods;
    if k < n - 1 { LoadCovers(c, n - 1, k, x); }
  }

  // ----- Sums over ticks -----

  /** Sum of the loads of `n` ticks that start at `s`. */
  function Pulses(s: real, n: nat): real
    decreases n
  {
    if n == 0 then 0.0 else s + Pulses(Max(0.0, s - 1.0), n - 1)
  }

  lemma {:induction false} PulsesOfNothing(n: nat)
    ensures Pulses(0.0, n) == 0.0
  {
    if n > 0 { PulsesOfNothing(n - 1); }
  }

  /** The sum of `s`, `s - 1` and so on down to `s - k`. */
  function Pyramid(s: real, k: real): real { (k + 1.0) * (s - k / 2.0) }

  lemma PyramidSteps(s: real, k: real)
    ensures Pyramid(s, 0.0) == s && Pyramid(s, k) == s + Pyramid(s - 1.0, k - 1.0)
  {
    var h := s - k / 2.0;
    assert s - 1.0 - (k - 1.0) / 2.0 == h - 0.5;
    assert k * (h - 0.5) == k * h - k / 2.0;
    assert (k + 1.0) * h == k * h + h;
  }

  /** The sum of all pulses from `s` down. */
  function PulseTotal(s: real): real { Pyramid(s, s.Floor as real) }

  /** Once the load has run out, the sum has its closed form and stays there. */
  lemma {:induction false} PulsesTotal(s: real, n: nat)
    requires 0.0 <= s && s.Floor < n
    ensures Pulses(s, n) == PulseTotal(s)
    decreases n
  {
    hide Pyramid;
    PyramidSteps(s, s.Floor as real);
    if s < 1.0 {
      PulsesOfNothing(n - 1);
    } else {
      assert (s - 1.0).Floor == s.Floor - 1;
      PulsesTotal(s - 1.0, n - 1);
    }
  }

  lemma {:induction false} PulsesGrow(s: real, n: nat, more: nat)
    requires 0.0 <= s && n <= more
    ensures 0.0 <= Pulses(s, n) <= Pulses(s, more)
    decreases more
  {
    if n > 0 {
      PulsesGrow(Max(0.0, s - 1.0), n - 1, more - 1);
    } else if more > 0 {
      PulsesGrow(Max(0.0, s - 1.0), 0, more - 1);
    }
  }

  // ----- The distance of a stop -----

  /** Each wheel travels its own speed in proportion to the sum of the loads. */
  lemma {:induction false} TravelIsExact(c: Limits, n: nat, sent: Pair, i: nat)
    requires c.Valid() && i < 2
    ensures Mul(Travel(c, n, sent, i), Load(c, sent)) == Over(Mul(Abs(sent.At(i)), Pulses(Load(c, sent), n)), c.hz)
  {
    hide Mul;
    hide Over;
    hide Brake;
    var x, s := Abs(sent.At(i)), Load(c, sent);
    MulUnit(s);
    MulUnit(x);
    OverZero(c.hz);
    if n > 0 {
      var next, m := Brake(c, sent), Kept(c, sent);
      hide Kept;
      BrakeIsExact(c, sent);
      BrakeScales(c, sent);
      TimesSize(sent, m, i);
      LoadTimes(c, c.Axes(), sent, m);
      var t := Load(c, next);
      LoadPositive(c, next);
      hide Pair.Times;
      hide Load;
      var rest, p := Travel(c, n - 1, next, i), Pulses(t, n - 1);
      TravelIsExact(c, n - 1, next, i);
      ShareOfRest(rest, m, s, x, p, c.hz, t);
      if t == 0.0 {
        PulsesOfNothing(n - 1);
        StillStays(c, n - 1, i);
      }
      MulSpread(s, Over(x, c.hz), rest);
      MulSpread(x, s, p);
      OverSum(Mul(x, s), Mul(x, p), c.hz);
      MulSwap(s, Over(x, c.hz));
      MulOver(s, x, c.hz);
      MulSwap(s, x);
      MulSwap(s, Over(x, c.hz) + rest);
      MulSwap(s, rest);
    }
  }

  lemma ShareOfRest(rest: real, m: real, s: real, x: real, p: real, hz: real, t: real)
    requires 0.0 < hz && 0.0 <= m && t == Mul(m, s)
    requires Mul(rest, t) == Over(Mul(Mul(m, x), p), hz)
    ensures m == 0.0 || Mul(rest, s) == Over(Mul(x, p), hz)
  {
  }

  lemma {:induction false} StillStays(c: Limits, n: nat, i: nat)
    requires c.Valid() && i < 2
    ensures Travel(c, n, Still, i) == 0.0
  {
    hide Brake;
    hide Over;
    OverZero(c.hz);
    if n > 0 {
      FastestBounds(Still);
      BrakeContracts(c, Still);
      StillStays(c, n - 1, i);
    }
  }

  /** Everything wheel `i` travels until rest. */
  function WholeStop(c: Limits, sent: Pair, i: nat): real
    requires c.Valid() && i < 2
  {
    var load := Load(c, sent);
    if load == 0.0 then 0.0 else Over(Over(Mul(Abs(sent.At(i)), PulseTotal(load)), c.hz), load)
  }

  /** The distance grows up to the closed form, and reaches it. */
  lemma TravelReachesWholeStop(c: Limits, sent: Pair, i: nat, n: nat)
    requires c.Valid() && i < 2
    ensures Travel(c, n, sent, i) <= WholeStop(c, sent, i)
    ensures Load(c, sent).Floor < n ==> Travel(c, n, sent, i) == WholeStop(c, sent, i)
  {
    hide Mul;
    hide Over;
    hide Travel;
    hide Load;
    hide PulseTotal;
    var s, x, travel := Load(c, sent), Abs(sent.At(i)), Travel(c, n, sent, i);
    LoadPositive(c, sent);
    if s == 0.0 {
      StillStays(c, n, i);
    } else {
      TravelIsExact(c, n, sent, i);
      var full := Max(n as real, (s.Floor + 1) as real).Floor;
      PulsesTotal(s, full);
      PulsesGrow(s, n, full);
      MulMono(Pulses(s, n), Pulses(s, full), x);
      OverOrder(Mul(x, Pulses(s, n)), Mul(x, Pulses(s, full)), c.hz);
      OverOrder(Mul(travel, s), Over(Mul(x, PulseTotal(s)), c.hz), s);
      OverMul(travel, s);
      if s.Floor < n { PulsesTotal(s, n); }
    }
  }

  /** A reserve covers every stop exactly when it covers the closed form of the whole stop. */
  lemma ReserveIsExact(c: Limits, sent: Pair, i: nat, reserve: real)
    requires c.Valid() && i < 2
    ensures (forall n: nat :: Travel(c, n, sent, i) <= reserve) <==> WholeStop(c, sent, i) <= reserve
  {
    hide Travel;
    hide WholeStop;
    forall n: nat
      ensures Travel(c, n, sent, i) <= WholeStop(c, sent, i)
    {
      TravelReachesWholeStop(c, sent, i, n);
    }
    var k: nat := Load(c, sent).Floor + 1;
    TravelReachesWholeStop(c, sent, i, k);
  }
}
