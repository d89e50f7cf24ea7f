/** Where the wheel runtime meets the wheel bus: what the one sends, the other accepts. */
module WheelLink {
  import opened Numbers
  import opened WheelMotion
  import opened Binary32
  import H55Bus

  /** How one wheel's logical speed becomes a motor speed. */
  datatype Drivetrain = Drivetrain(direction: int, reduction: real) {
    predicate Valid() { direction in {1, -1} && 0.0 < reduction }

    function Raw(speed: real): real { Mul(Mul(speed, direction as real), reduction) }
  }

  /** The configuration check that the software wheel limit stays within the driver's. */
  predicate LimitsNest(c: Limits, d: Drivetrain, m: H55Bus.MotorConfig) {
    Mul(c.wheelSpeed, d.reduction) <= m.maximumSpeed
  }

  /** An admitted pair of wheel speeds never fails the speed check of the bus, whichever way the wheels turn. */
  lemma AdmittedSpeedsPassTheBus(c: Limits, sent: Pair, d: seq<Drivetrain>, bus: H55Bus.Config, i: nat)
    requires c.Valid() && c.Admits(sent) && bus.Valid() && |d| == 2 && i < 2
    requires d[i].Valid() && LimitsNest(c, d[i], bus.motors[i])
    ensures Abs(d[i].Raw(sent.At(i))) <= bus.motors[i].maximumSpeed
  {
    assert Abs(c.Coordinate(i, sent)) <= c.Cap(i);
    hide Mul;
    hide Limits.Admits;
    var s, k := sent.At(i), d[i].direction as real;
    AbsMul(Mul(s, k), d[i].reduction);
    AbsMul(s, k);
    MulUnit(Abs(s));
    MulMono(Abs(s), c.wheelSpeed, d[i].reduction);
  }
}
