/** The wheel pair as the transmit thread drives it: one field, updated tick by tick. */
module WheelDrive {
  import opened Numbers
  import opened WheelMotion
  import opened Braking

  class Drive {
    const limits: Limits
    var sent: Pair

    constructor (limits: Limits)
      requires limits.Valid()
      ensures this.limits == limits && sent == Still
    {
      this.limits := limits;
      sent := Still;
    }

    /** Divides the request by one common scale. */
    method Limit(requested: Pair) returns (target: Pair)
      requires limits.Valid()
      ensures target == limits.Limited(requested)
      ensures Abs(target.left) <= limits.wheelSpeed && Abs(target.right) <= limits.wheelSpeed
      ensures !limits.bench ==>
        Abs(limits.Forward(target)) <= limits.linearSpeed && Abs(limits.Yaw(target)) <= limits.angularSpeed
    {
      LimitedIsAdmitted(limits, requested);
      AdmitsIff(limits, limits.Limited(requested));
      hide Limits.Admits;
      hide Over;
      target := requested;
      var scale := Max(Max(1.0, Over(Abs(target.left), limits.wheelSpeed)), Over(Abs(target.right), limits.wheelSpeed));
      assert scale == limits.Scale(2, requested) by {
        assert limits.Scale(1, requested) == Max(1.0, Over(Abs(target.left), limits.wheelSpeed));
      }
      if !limits.bench {
        var v := Over(Mul(target.left, limits.radius.left) + Mul(target.right, limits.radius.right), 2.0);
        var w := Over(Mul(target.right, limits.radius.right) - Mul(target.left, limits.radius.left), limits.separation);
        scale := Max(Max(scale, Over(Abs(v), limits.linearSpeed)), Over(Abs(w), limits.angularSpeed));
        assert scale == limits.Scale(4, requested) by {
          assert limits.Scale(3, requested) == Max(limits.Scale(2, requested), Over(Abs(v), limits.linearSpeed));
        }
      }
      for i := 0 to 2
        invariant target == Pair(if i > 0 then Over(requested.left, scale) else requested.left,
                                 if i > 1 then Over(requested.right, scale) else requested.right)
      {
        target := target.With(i, Over(target.At(i), scale));
      }
    }

    /** Where a tick heads: the limited request, or rest before a reversal. */
    method Heading(requested: Pair) returns (target: Pair)
      requires limits.Valid()
      ensures target == limits.Aim(sent, requested)
    {
      hide Mul;
      hide Over;
      hide Limits.Limited;
      target := Limit(requested);
      var reversing := false;
      for i := 0 to 2
        invariant reversing <==>
          (i > 0 && Mul(target.left, sent.left) < 0.0) || (i > 1 && Mul(target.right, sent.right) < 0.0)
      {
        reversing := reversing || Mul(target.At(i), sent.At(i)) < 0.0;
      }
      if reversing {
        target := Still;
      }
    }

    /** The share of the way to `target` that the slew limits leave. */
    method Share(target: Pair) returns (ratio: real)
      requires limits.Valid()
      ensures ratio == limits.Ratio(limits.Axes(), sent, target)
    {
      hide Mul;
      hide Over;
      hide Limits.Coordinate;
      ratio := 1.0;
      for k := 0 to limits.Axes()
        invariant ratio == limits.Ratio(k, sent, target)
      {
        var from, to := limits.Coordinate(k, sent), limits.Coordinate(k, target);
        var delta := Abs(to - from);
        if delta > 0.0 {
          var rate := if Abs(to) < Abs(from) then limits.Deceleration(k) else limits.Acceleration(k);
          OverPositive(rate, limits.hz);
          ratio := Min(ratio, Over(Over(rate, limits.hz), delta));
        }
      }
    }

    /** The next pair: limited, held at zero before a reversal, and slewed by one common share. */
    method Ramp(requested: Pair) returns (next: Pair)
      requires limits.Valid()
      ensures next == limits.Ramp(sent, requested)
      ensures limits.WithinRates(sent, limits.Aim(sent, requested), next)
      ensures !limits.bench ==>
        && Abs(limits.Forward(next)) - Abs(limits.Forward(sent)) <= Over(limits.linearAcceleration, limits.hz)
        && Abs(limits.Yaw(next)) - Abs(limits.Yaw(sent)) <= Over(limits.angularAcceleration, limits.hz)
    {
      RampRespectsSlew(limits, sent, requested);
      if !limits.bench { BodySlew(limits, sent, requested); }
      hide Limits.WithinRates;
      hide Limits.Forward;
      hide Limits.Yaw;
      hide Limits.Aim;
      hide Limits.Ratio;
      hide Mul;
      hide Over;
      var target := Heading(requested);
      var ratio := Share(target);
      next := sent;
      for i := 0 to 2
        invariant next == Pair(if i > 0 then Blend(sent.left, target.left, ratio) else sent.left,
                               if i > 1 then Blend(sent.right, target.right, ratio) else sent.right)
      {
        next := next.With(i, sent.At(i) + Mul(ratio, target.At(i) - sent.At(i)));
      }
    }

    method Tick(requested: Pair)
      requires limits.Valid()
      modifies this`sent
      ensures sent == limits.Ramp(old(sent), requested)
      ensures limits.Admits(old(sent)) ==> limits.Admits(sent)
    {
      hide Limits.Ramp;
      hide Limits.Admits;
      if limits.Admits(sent) { RampStaysAdmitted(limits, sent, requested); }
      sent := Ramp(requested);
    }

    /**
     The braking loop of a controlled stop, at most `budget` ticks long. It leaves early only
     when both wheels are commanded below 1e-9 and `standstill` reports that they stand.
     */
    method BrakeToRest(budget: nat, standstill: seq<bool>) returns (ticks: nat)
      requires limits.Valid() && |standstill| == budget
      modifies this`sent
      ensures ticks <= budget && sent == BrakeTicks(limits, ticks, old(sent))
      ensures ticks < budget ==> ticks > 0 && standstill[ticks - 1] && sent.Fastest() < 0.000000001
      ensures old(sent).Fastest() <= Mul(ticks as real, Notch(limits)) ==> sent == Still
    {
      hide Mul;
      hide Limits.Ramp;
      hide Notch;
      ticks := 0;
      while ticks < budget
        invariant ticks <= budget && sent == BrakeTicks(limits, ticks, old(sent))
      {
        BrakeTicksAppend(limits, ticks, old(sent));
        sent := Ramp(Still);
        ticks := ticks + 1;
        if Abs(sent.left) < 0.000000001 && Abs(sent.right) < 0.000000001 && standstill[ticks - 1] {
          break;
        }
      }
      if old(sent).Fastest() <= Mul(ticks as real, Notch(limits)) {
        BrakeReachesRest(limits, ticks, old(sent));
      }
    }
  }

  lemma {:induction false} BrakeTicksAppend(c: Limits, n: nat, sent: Pair)
    requires c.Valid()
    ensures BrakeTicks(c, n + 1, sent) == Brake(c, BrakeTicks(c, n, sent))
  {
    hide Brake;
    if n > 0 {
      BrakeTicksAppend(c, n - 1, Brake(c, sent));
    }
  }
}
