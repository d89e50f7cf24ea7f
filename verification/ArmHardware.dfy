/** The arm's write path: step limiting, joint and motor coordinates, and what the bus then checks. */
module ArmHardware {
  import opened Numbers
  import opened Binary32
  import opened Can
  import opened Protocol
  import opened BusState
  import opened BusSteps
  import DamiaoBus

  /** Clock ticks are nanoseconds. */
  function Seconds(ticks: int): real { ticks as real / 1000000000.0 }

  // ----- One axis -----

  datatype Axis = Axis(
    motor: string, address: Address, direction: int, reduction: real, zero: real,
    minPosition: real, maxPosition: real, maxVelocity: real, tolerance: real)
  {
    predicate Valid() {
      direction in {1, -1} && 0.0 < reduction && minPosition < maxPosition && 0.0 < maxVelocity && 0.0 < tolerance
    }

    predicate Within(position: real) { minPosition <= position <= maxPosition }

    /** Joint coordinates to those of the motor's output. */
    function Motor(joint: real): real { zero + Mul(Mul(direction as real, reduction), joint) }

    function Joint(motor: real): real
      requires Valid()
    {
      Over(Mul(direction as real, motor - zero), reduction)
    }

    function MotorSpeed(): real { Mul(reduction, maxVelocity) }

    function LowEnd(): real { Min(Motor(minPosition), Motor(maxPosition)) }

    function HighEnd(): real { Max(Motor(minPosition), Motor(maxPosition)) }
  }

  /** The two coordinates are inverse to each other, whichever way the joint turns. */
  lemma ConversionRoundTrips(x: Axis, joint: real, motor: real)
    requires x.Valid()
    ensures x.Motor(joint) == motor <==> x.Joint(motor) == joint
  {
  }

  /**
   The motor turns the way the joint does or against it, as configured, by the reduction times the angle, and stands
   at its offset when the joint is at zero; the speed limit of the joint is kept exactly when that of the motor is.
   */
  lemma MotorFollows(x: Axis, a: real, b: real, seconds: real)
    requires x.Valid() && 0.0 <= seconds
    ensures x.Motor(0.0) == x.zero && Abs(x.Motor(b) - x.Motor(a)) == Mul(x.reduction, Abs(b - a))
    ensures Abs(b - a) <= Mul(x.maxVelocity, seconds) <==> Abs(x.Motor(b) - x.Motor(a)) <= Mul(x.MotorSpeed(), seconds)
    ensures x.direction == 1 ==> (a < b <==> x.Motor(a) < x.Motor(b))
    ensures x.direction == -1 ==> (a < b <==> x.Motor(b) < x.Motor(a))
  {
    MulShift(x.direction as real, x.reduction, a);
    MulShift(x.direction as real, x.reduction, b);
    MulSpread(x.reduction, b, a);
    MulUnit(Mul(x.direction as real, x.reduction));
    AbsMul(x.reduction, b - a);
    MulOrder(a, b, x.reduction);
    MulOrder(b, a, x.reduction);
    MulSwap(a, x.reduction);
    MulSwap(b, x.reduction);
    SignedMul(x.direction, Mul(x.reduction, a));
    SignedMul(x.direction, Mul(x.reduction, b));
    MulShift(x.reduction, x.maxVelocity, seconds);
    MulSwap(Abs(b - a), x.reduction);
    MulSwap(Mul(x.maxVelocity, seconds), x.reduction);
    MulOrder(Abs(b - a), Mul(x.maxVelocity, seconds), x.reduction);
    hide Mul;
  }

  lemma SignedMul(direction: int, x: real)
    ensures direction == 1 ==> Mul(direction as real, x) == x
    ensures direction == -1 ==> Mul(direction as real, x) == -x
  {
  }

  /** The motor stays within its registered ends exactly when the joint stays within its own. */
  lemma LimitsCorrespond(x: Axis, joint: real)
    requires x.Valid()
    ensures x.Within(joint) <==> x.LowEnd() <= x.Motor(joint) <= x.HighEnd()
  {
  }

  // ----- Limiting a step -----

  function MaxStep(maxVelocity: real, seconds: real): real { Mul(Mul(maxVelocity, seconds), 0.9) }

  function LimitStep(requested: real, previous: real, maxVelocity: real, seconds: real): real
    requires 0.0 <= maxVelocity && 0.0 <= seconds
  {
    var step := MaxStep(maxVelocity, seconds);
    MulMono(0.0, maxVelocity, seconds);
    MulMono(0.0, Mul(maxVelocity, seconds), 0.9);
    Clamp(requested, previous - step, previous + step)
  }

  /**
   The limited command lies on the way to the request, at most one step off, and is the request when that is near
   enough.
   */
  lemma LimitedStep(requested: real, previous: real, maxVelocity: real, seconds: real)
    requires 0.0 <= maxVelocity && 0.0 <= seconds
    ensures var r, step := LimitStep(requested, previous, maxVelocity, seconds), 0.9 * Mul(maxVelocity, seconds);
      && Abs(r - previous) <= step
      && Min(previous, requested) <= r <= Max(previous, requested)
      && (r == requested <==> Abs(requested - previous) <= step)
  {
  }

  // ----- What the bus then checks -----

  /** What configuring registers for an axis. */
  function Registration(x: Axis): MotorConfig {
    MotorConfig(x.motor, x.address, PositionVelocity, Mapping(Finite(0.0), Finite(0.0), Finite(0.0)), false, false,
                Some(Finite(x.LowEnd())), Some(Finite(x.HighEnd())), Some(Finite(x.MotorSpeed())))
  }

  /**
   What configuring demands of the motor once it has been synchronised: limits and speed within the device's mapping.
   */
  predicate FitsMapping(x: Axis, m: Mapping) {
    && m.Valid() && Representable(m.position.value) && Representable(m.velocity.value)
    && Max(Abs(x.Motor(x.minPosition)), Abs(x.Motor(x.maxPosition))) <= m.position.value
    && x.MotorSpeed() <= m.velocity.value
  }

  function Target(x: Axis, joint: real): PositionCommand {
    PositionCommand(Finite(x.Motor(joint)), Finite(x.MotorSpeed()))
  }

  /** Neither number of the target is a nonzero one that binary32 would turn into zero. */
  predicate Lossless(x: Axis, joint: real) {
    (x.Motor(joint) == 0.0 || Magnitude(ToBits(x.Motor(joint))) != 0) && Magnitude(ToBits(x.MotorSpeed())) != 0
  }

  /** The motor was registered for the axis, and its device can express all of the axis. */
  predicate FittedTo(x: Axis, m: MotorConfig) {
    DamiaoBus.SameRegistration(Registration(x), m) && FitsMapping(x, m.mapping)
  }

  predicate Fitted(axes: seq<Axis>, motors: seq<MotorConfig>) {
    |motors| == |axes| && forall k | 0 <= k < |axes| :: FittedTo(axes[k], motors[k])
  }

  /** Each motor carries what its axis registered. */
  predicate Registered(axes: seq<Axis>, motors: seq<MotorConfig>) {
    |motors| == |axes| && forall k | 0 <= k < |axes| :: DamiaoBus.SameRegistration(Registration(axes[k]), motors[k])
  }

  lemma RegistrationStays(axes: seq<Axis>, a: seq<MotorConfig>, b: seq<MotorConfig>, index: nat)
    requires Registered(axes, a) && DamiaoBus.OthersKept(a, b, index)
    ensures Registered(axes, b)
  {
  }

  lemma FittedFits(axes: seq<Axis>, motors: seq<MotorConfig>)
    requires Fitted(axes, motors)
    ensures |motors| == |axes|
  {
  }

  /**
   For a joint command within limits the range checks of the bus are met; only a number that binary32 loses can fail.
   */
  lemma TargetPermittedIff(x: Axis, m: MotorConfig, joint: real)
    requires x.Valid() && x.Within(joint) && FittedTo(x, m)
    ensures DamiaoBus.Permitted(m, Target(x, joint)) <==> Lossless(x, joint)
  {
    LimitsCorrespond(x, joint);
    EndsDiffer(x);
    RepresentableInRange(m.mapping.position.value);
    RepresentableInRange(m.mapping.velocity.value);
    hide ToBits;
    hide Largest;
    hide Axis.Motor;
    hide Axis.MotorSpeed;
  }

  function Targets(axes: seq<Axis>, joints: seq<real>): seq<PositionCommand>
    requires |joints| == |axes|
  {
    seq(|axes|, k requires 0 <= k < |axes| => Target(axes[k], joints[k]))
  }

  /** Every motor has a fresh sample without a driver fault. */
  predicate Fresh(link: Link, slots: seq<Slot>) { forall k | 0 <= k < |slots| :: link.FeedbackCode(slots[k]) == Ok }

  /**
   On a bus in control, a batch of joint commands within limits passes all of the bus's checks exactly when the
   feedback of every motor is fresh and binary32 loses no target.
   */
  lemma TargetsPassIff(axes: seq<Axis>, b: Bus, joints: seq<real>)
    requires Sound(b) && b.link.mode == Control && Fitted(axes, b.motors) && Bounded(axes, joints)
    requires forall k | 0 <= k < |axes| :: axes[k].Valid()
    ensures |b.slots| == |axes|
    ensures (forall k | 0 <= k < |axes| ::
      DamiaoBus.CommandCode(b.link, b.slots[k], b.motors[k], Targets(axes, joints)[k]) == Ok)
       <==> Fresh(b.link, b.slots) && forall k | 0 <= k < |axes| :: Lossless(axes[k], joints[k])
  {
    ControlMeansEnabled(b);
    hide Sound;
    hide Lossless;
    hide Axis.Within;
    hide Axis.Valid;
    hide Link.FeedbackCode;
    hide Target;
    forall k | 0 <= k < |axes|
      ensures DamiaoBus.Permitted(b.motors[k], Targets(axes, joints)[k]) <==> Lossless(axes[k], joints[k])
    {
      assert FittedTo(axes[k], b.motors[k]);
      TargetPermittedIff(axes[k], b.motors[k], joints[k]);
    }
    hide DamiaoBus.Permitted;
    hide Fitted;
    hide Bounded;
  }

  lemma ControlMeansEnabled(b: Bus)
    requires Sound(b) && b.link.mode == Control
    ensures |b.slots| == |b.motors| && forall k | 0 <= k < |b.slots| :: b.slots[k].state.status == 1
  {
  }

  lemma RepresentableInRange(x: real)
    requires Representable(x)
    ensures Abs(x) <= Largest()
  {
    var b: Bits :| IsFinite(b) && Value(b) == x;
    FiniteIsInRange(b);
  }

  lemma EndsDiffer(x: Axis)
    requires x.Valid()
    ensures x.LowEnd() < x.HighEnd() && 0.0 < x.MotorSpeed()
  {
  }

  // ----- A run of batches -----

  /** A batch that the bus took: when, and at which joint positions. */
  datatype Batch = Batch(at: int, joints: seq<real>)

  predicate Bounded(axes: seq<Axis>, joints: seq<real>) {
    |joints| == |axes| && forall k | 0 <= k < |axes| :: axes[k].Within(joints[k])
  }

  /** From batch `a` to the later batch `b` no joint command moves faster than nine tenths of its speed limit. */
  predicate Reaches(axes: seq<Axis>, a: Batch, b: Batch)
    requires |a.joints| == |axes| == |b.joints|
  {
    a.at <= b.at && forall k | 0 <= k < |axes| ::
      Abs(b.joints[k] - a.joints[k]) <= 0.9 * Mul(axes[k].maxVelocity, (b.at - a.at) as real / 1000000000.0)
  }

  predicate Paced(axes: seq<Axis>, trace: seq<Batch>) {
    && (forall i | 0 <= i < |trace| :: Bounded(axes, trace[i].joints))
    && forall i, j | 0 <= i < j < |trace| :: Reaches(axes, trace[i], trace[j])
  }

  lemma ReachesOnward(axes: seq<Axis>, a: Batch, b: Batch, c: Batch)
    requires |a.joints| == |b.joints| == |c.joints| == |axes| && Reaches(axes, a, b) && Reaches(axes, b, c)
    ensures Reaches(axes, a, c)
  {
    var s, t := (b.at - a.at) as real / 1000000000.0, (c.at - b.at) as real / 1000000000.0;
    assert (c.at - a.at) as real / 1000000000.0 == s + t;
    forall k | 0 <= k < |axes|
      ensures Mul(axes[k].maxVelocity, s + t) == Mul(axes[k].maxVelocity, s) + Mul(axes[k].maxVelocity, t)
    {
      MulSpread(axes[k].maxVelocity, s, t);
    }
    hide Mul;
  }

  /** The frame that the bus makes of a target carries motor position and speed, rounded, to the axis's motor. */
  lemma FrameCarries(x: Axis, m: MotorConfig, joint: real)
    requires x.Valid() && m.address.Valid() && FittedTo(x, m) && DamiaoBus.Permitted(m, Target(x, joint))
    ensures var f := DamiaoBus.FrameFor(m, Target(x, joint));
      && f.id == x.address.esc + 0x100 && f.length == 8
      && Value(Load(f.data[..4])) == Rounded(x.Motor(joint)) && Value(Load(f.data[4..])) == Rounded(x.MotorSpeed())
  {
    DamiaoBus.PermittedIff(m, Target(x, joint));
    PositionVelocityArrives(m.address.esc, Target(x, joint));
    hide Value;
    hide Load;
    hide ToBits;
    hide Axis.Motor;
    hide Axis.MotorSpeed;
  }

  /** One more limited step keeps the whole run paced: the bounds add up along the way. */
  lemma PacedOnward(axes: seq<Axis>, trace: seq<Batch>, b: Batch)
    requires Paced(axes, trace) && trace != [] && Bounded(axes, b.joints) && Reaches(axes, trace[|trace| - 1], b)
    ensures Paced(axes, trace + [b])
  {
    var more, last := trace + [b], |trace| - 1;
    hide Bounded;
    forall i | 0 <= i < |trace|
      ensures |trace[i].joints| == |axes|
    {
      BoundedFits(axes, trace[i].joints);
    }
    BoundedFits(axes, b.joints);
    forall i, j | 0 <= i < j < |more|
      ensures Reaches(axes, more[i], more[j])
    {
      if j == |trace| && i < last {
        assert Reaches(axes, trace[i], trace[last]);
        ReachesOnward(axes, trace[i], trace[last], b);
      }
    }
  }

  lemma BoundedFits(axes: seq<Axis>, joints: seq<real>)
    requires Bounded(axes, joints)
    ensures |joints| == |axes|
  {
  }

  lemma FirstBatchIsPaced(axes: seq<Axis>, b: Batch)
    requires Bounded(axes, b.joints)
    ensures Paced(axes, [b])
  {
  }

  const Millisecond := 1000000

  /** Between `a` and `b` a frame with this command went to this motor. */
  predicate Tells(command: Management, a: seq<CanFrame>, b: seq<CanFrame>, m: MotorConfig) {
    exists i | |a| <= i < |b| :: IsManagement(b[i], m.address.esc, m.mode, command)
  }

  lemma TellsOnward(command: Management, a: seq<CanFrame>, b: seq<CanFrame>, c: seq<CanFrame>, d: seq<CanFrame>,
                    m: MotorConfig)
    requires a <= b <= c <= d && Tells(command, b, c, m)
    ensures Tells(command, a, d, m)
  {
    hide IsManagement;
    var i :| |b| <= i < |c| && IsManagement(c[i], m.address.esc, m.mode, command);
    assert d[i] == c[i];
  }

  lemma ToldNow(command: Management, a: seq<CanFrame>, b: seq<CanFrame>, m: MotorConfig)
    requires DamiaoBus.CommandOnWire(a, b, m, command) && |b| == |a| + 2
    ensures a <= b && Tells(command, a, b, m)
  {
    hide IsManagement;
    hide IsRequest;
  }

  predicate TellsAll(command: Management, a: seq<CanFrame>, b: seq<CanFrame>, motors: seq<MotorConfig>) {
    forall k | 0 <= k < |motors| :: Tells(command, a, b, motors[k])
  }

  lemma AllOnward(command: Management, a: seq<CanFrame>, b: seq<CanFrame>, c: seq<CanFrame>, d: seq<CanFrame>,
                  motors: seq<MotorConfig>)
    requires a <= b <= c <= d && TellsAll(command, b, c, motors)
    ensures TellsAll(command, a, d, motors)
  {
    hide Tells;
    forall k | 0 <= k < |motors|
      ensures Tells(command, a, d, motors[k])
    {
      TellsOnward(command, a, b, c, d, motors[k]);
    }
  }

  /** A slot before any feedback. */
  const Blank := MotorState(0.0, 0.0, 0.0, 0, 0, 0, 0, 0, 0, false)

  /** `Skipped` is a cycle that rightly sends nothing. */
  datatype Outcome = Done | Skipped | Failed | Refused

  class Arm {
    const axes: seq<Axis>
    const honest: bool
    const maxControlPeriod: int
    const feedbackTimeout: int
    const quietPeriod: int
    const mayEnable: bool
    var bus: DamiaoBus.DamiaoBus?
    var configured: bool
    var fault: bool
    var active: bool
    var enableAttempted: bool
    var position: seq<real>
    var command: seq<Double>
    var last: seq<real>
    var lastSentAt: Option<int>
    var holdPending: bool
    /** The batches that the bus took since the last activation. */
    ghost var trace: seq<Batch>

    ghost function Owned(): set<object>
      reads this
    {
      if bus == null then {} else {bus}
    }

    ghost predicate Valid()
      reads this, Owned()
    {
      && 0 < |axes| && (forall k | 0 <= k < |axes| :: axes[k].Valid())
      && |position| == |command| == |last| == |axes|
      && (bus != null ==> bus.Valid() && !bus.link.closing)
      && (configured ==> bus != null && Fitted(axes, bus.motors))
      && (active ==>
            && configured && lastSentAt.Some? && trace != [] && trace[|trace| - 1] == Batch(lastSentAt.value, last)
            && Paced(axes, trace))
    }

    constructor (axes: seq<Axis>, honest: bool, maxControlPeriod: int, feedbackTimeout: int, quietPeriod: int,
                 mayEnable: bool)
      requires 0 < |axes| && forall k | 0 <= k < |axes| :: axes[k].Valid()
      ensures Valid() && this.axes == axes && bus == null && !active && !configured
    {
      this.axes, this.honest, this.mayEnable := axes, honest, mayEnable;
      this.maxControlPeriod, this.feedbackTimeout, this.quietPeriod := maxControlPeriod, feedbackTimeout, quietPeriod;
      bus, configured, fault, active, enableAttempted, holdPending := null, false, false, false, false, false;
      lastSentAt, trace := None, [];
      position := seq(|axes|, i => 0.0);
      last := seq(|axes|, i => 0.0);
      command := seq(|axes|, i => NonFinite);
    }

    // ----- Configuring -----

    /**
     A new bus, all motors registered and synchronised, each one's device able to express its axis, and all
     disabled.
     */
    method Configure() returns (r: Outcome)
      requires Valid()
      modifies this, Owned()
      ensures Valid() && r in {Done, Failed} && (r == Done <==> configured) && !active && !fault
      ensures bus == null || fresh(bus)
    {
      hide Sound;
      hide Fitted;
      CloseBus();
      fault := false;
      bus := new DamiaoBus.DamiaoBus(honest);
      var good := Prepare(bus);
      if good {
        good := ReadPositions();
      }
      if !good {
        CloseBus();
        return Failed;
      }
      configured := true;
      return Done;
    }

    /** Registers, opens and synchronises. */
    method Prepare(bus: DamiaoBus.DamiaoBus) returns (good: bool)
      requires forall k | 0 <= k < |axes| :: axes[k].Valid()
      requires bus.Valid() && bus.link.mode == Closed && !bus.link.closing && bus.motors == []
      modifies bus
      ensures bus.Valid() && !bus.link.closing && (good ==> Fitted(axes, bus.motors))
    {
      hide Sound;
      hide Fitted;
      hide Bus.Opened;
      hide Axis.Motor;
      hide Axis.MotorSpeed;
      good := RegisterAll(bus);
      if good {
        var transport: Code, starts: bool := *, *;
        var answer := bus.Open(false, feedbackTimeout, quietPeriod, transport, starts);
        good := answer == Ok;
      }
      if good {
        good := SynchronizeAll(bus);
      }
    }

    method RegisterAll(bus: DamiaoBus.DamiaoBus) returns (good: bool)
      requires bus.Valid() && bus.link.mode == Closed && !bus.link.closing && bus.motors == []
      modifies bus
      ensures bus.Valid() && bus.link.mode == Closed && !bus.link.closing
      ensures good ==> Registered(axes, bus.motors)
    {
      hide Sound;
      hide Axis.Motor;
      hide Axis.MotorSpeed;
      for k := 0 to |axes|
        invariant bus.Valid() && bus.link.mode == Closed && !bus.link.closing && |bus.motors| == k
        invariant Registered(axes[..k], bus.motors)
      {
        var registers: Registers := *;
        var registered := bus.RegisterMotor(Registration(axes[k]), Blank, registers);
        if registered.Failure? || registered.value != k {
          return false;
        }
        assert axes[..k + 1] == axes[..k] + [axes[k]];
      }
      assert axes[..|axes|] == axes;
      good := true;
    }

    /** Any mismatch of mode or mapping keeps the arm from being configured. */
    method SynchronizeAll(bus: DamiaoBus.DamiaoBus) returns (good: bool)
      requires bus.Valid() && !bus.link.closing && Registered(axes, bus.motors)
      modifies bus
      ensures bus.Valid() && !bus.link.closing && (good ==> Fitted(axes, bus.motors))
    {
      hide Sound;
      hide DamiaoBus.SameRegistration;
      hide Axis.Motor;
      hide Axis.MotorSpeed;
      hide DamiaoBus.ReadsOnWire;
      hide DamiaoBus.Gated;
      hide DamiaoBus.Undisturbed;
      for k := 0 to |axes|
        invariant bus.Valid() && !bus.link.closing && Registered(axes, bus.motors)
        invariant forall j | 0 <= j < k :: FittedTo(axes[j], bus.motors[j])
      {
        var deadline: int := *;
        ghost var before := bus.motors;
        var code;
        ghost var gated;
        code, gated := bus.Synchronize(k, deadline);
        RegistrationStays(axes, before, bus.motors, k);
        if code != Ok {
          return false;
        }
        var x, m := axes[k], bus.motors[k];
        if m.mode != PositionVelocity
           || Max(Abs(x.Motor(x.minPosition)), Abs(x.Motor(x.maxPosition))) > m.mapping.position.value
           || x.MotorSpeed() > m.mapping.velocity.value
        {
          return false;
        }
      }
      good := true;
    }

    /**
     The first readings, with all motors disabled; a position out of limits only keeps the arm from being
     activated.
     */
    method ReadPositions() returns (good: bool)
      requires Valid() && bus != null && !active
      modifies this`position, this`command, this`last, bus
      ensures Valid() && bus.motors == old(bus.motors)
    {
      hide Sound;
      hide Fitted;
      for k := 0 to |axes|
        invariant Valid() && bus.motors == old(bus.motors)
      {
        var code, state := Query(k, false);
        if code != Ok || state.status != 0 || !state.valid {
          return false;
        }
        var joint := axes[k].Joint(state.position);
        position, command, last := position[k := joint], command[k := Finite(joint)], last[k := joint];
      }
      good := true;
    }

    method CloseBus()
      requires Valid()
      modifies this, Owned()
      ensures Valid() && bus == null && !configured && !active && !enableAttempted && fault == old(fault)
    {
      hide Sound;
      hide Fitted;
      hide Paced;
      hide Axis.Valid;
      if bus != null {
        if enableAttempted {
          var disabled := DisableAll();
        }
        var closed := bus.Close();
      }
      bus, configured, active, enableAttempted, holdPending, lastSentAt := null, false, false, false, false, None;
      command := seq(|axes|, i => NonFinite);
    }

    /** Ends control and disables every axis, even if one of them fails. */
    method DisableAll() returns (all: bool)
      requires Valid() && bus != null
      modifies this`enableAttempted, this`active, bus
      ensures Valid() && bus.motors == old(bus.motors) && bus.link.mode != Control
      ensures if all then !active && !enableAttempted
              else active == old(active) && enableAttempted == old(enableAttempted)
      ensures old(bus.world.wire) <= bus.world.wire
      ensures all && |bus.motors| == |axes| ==> TellsAll(Disable, old(bus.world.wire), bus.world.wire, bus.motors)
    {
      hide Sound;
      hide Fitted;
      hide Tells;
      all := true;
      var ended := bus.EndControl();
      ghost var start := bus.world.wire;
      for k := 0 to |axes|
        invariant start <= bus.world.wire
        invariant all ==>
          k <= |bus.motors| && forall j | 0 <= j < k :: Tells(Disable, start, bus.world.wire, bus.motors[j])
        invariant bus.Valid() && !bus.link.closing && bus.motors == old(bus.motors) && bus.link.mode != Control
        invariant active == old(active) && enableAttempted == old(enableAttempted)
      {
        var deadline: int := *;
        ghost var before := bus.world.wire;
        var code := bus.DisableMotor(k, deadline);
        all := all && code == Ok;
        if all {
          ToldNow(Disable, before, bus.world.wire, bus.motors[k]);
          forall j | 0 <= j <= k
            ensures Tells(Disable, start, bus.world.wire, bus.motors[j])
          {
            TellsOnward(Disable, start, if j < k then start else before, if j < k then before else bus.world.wire,
              bus.world.wire, bus.motors[j]);
          }
        }
      }
      if all {
        enableAttempted, active := false, false;
      }
    }

    // ----- Activating -----

    /** A controller writes the command interface, at any time and with any value. */
    method SetCommand(k: nat, value: Double)
      requires Valid() && k < |axes|
      modifies this`command
      ensures Valid()
    {
      command := command[k := value];
    }

    /** A reading of axis `k`: the answer to a query, or the cached sample after enabling it. */
    method Query(k: nat, enabling: bool) returns (code: Code, state: MotorState)
      requires bus != null && bus.Valid() && !bus.link.closing
      modifies bus
      ensures bus.Valid() && !bus.link.closing && bus.motors == old(bus.motors)
      ensures code == Ok ==> k < |bus.slots| && state == bus.slots[k].state
      ensures old(bus.world.wire) <= bus.world.wire
      ensures code == Ok && enabling ==>
        k < |bus.motors| && Tells(Enable, old(bus.world.wire), bus.world.wire, bus.motors[k])
    {
      hide Sound;
      hide Link.FeedbackCode;
      hide DamiaoBus.Undisturbed;
      hide IsManagement;
      hide IsRequest;
      ghost var before := bus.View();
      var deadline: int := *;
      state := Blank;
      if !enabling {
        var answer;
        code, answer := bus.QueryUnlocked(k, deadline);
        DamiaoBus.UndisturbedKeeps(before, bus.View());
        if code == Ok {
          state := answer.value;
        }
        return;
      }
      ghost var gated;
      code, gated := bus.CommandUnlocked(k, Enable, deadline);
      if code == Ok {
        DamiaoBus.UndisturbedKeeps(before, gated);
        assert IsManagement(bus.world.wire[|before.world.wire|], bus.motors[k].address.esc, bus.motors[k].mode, Enable);
        ghost var enabled := bus.View();
        code, state := bus.Snapshot(k);
        DamiaoBus.UndisturbedKeeps(enabled, bus.View());
      }
    }

    /** Checks one reading of axis `k`: expected status, and a position within limits. */
    method Accept(k: nat, code: Code, state: MotorState, status: nat) returns (joint: Option<real>)
      requires k < |axes| && axes[k].Valid()
      ensures joint.Some? ==>
        code == Ok && state.status == status && axes[k].Within(joint.value)
        && axes[k].Motor(joint.value) == state.position
    {
      if code != Ok || state.status != status || !state.valid {
        return None;
      }
      var p := axes[k].Joint(state.position);
      ConversionRoundTrips(axes[k], p, state.position);
      return if axes[k].Within(p) then Some(p) else None;
    }

    /**
     One pass over all axes: every reading must be acceptable, and with `near` within the activation tolerance of
     an earlier one. The held command follows the readings.
     */
    method Survey(status: nat, near: Option<seq<real>>, enabling: bool) returns (good: bool, seen: seq<real>)
      requires Valid() && configured && !active && (near.Some? ==> |near.value| == |axes|)
      modifies this`position, this`command, this`last, bus
      ensures Valid() && bus.motors == old(bus.motors)
      ensures good ==> Bounded(axes, seen) && position == seen && last == seen
      ensures good ==> forall k | 0 <= k < |axes| :: command[k] == Finite(seen[k])
      ensures |bus.motors| == |axes| && old(bus.world.wire) <= bus.world.wire
      ensures good && enabling ==> TellsAll(Enable, old(bus.world.wire), bus.world.wire, bus.motors)
      ensures good && near.Some? ==> forall k | 0 <= k < |axes| :: Abs(seen[k] - near.value[k]) <= axes[k].tolerance
    {
      hide Sound;
      hide Fitted;
      hide Axis.Motor;
      hide Axis.Joint;
      hide Tells;
      FittedFits(axes, bus.motors);
      ghost var start := bus.world.wire;
      seen := [];
      for k := 0 to |axes|
        invariant start <= bus.world.wire && |bus.motors| == |axes|
        invariant enabling ==> forall j | 0 <= j < k :: Tells(Enable, start, bus.world.wire, bus.motors[j])
        invariant Valid() && bus.motors == old(bus.motors) && |seen| == k && position[..k] == seen && last[..k] == seen
        invariant forall j | 0 <= j < k :: axes[j].Within(seen[j]) && command[j] == Finite(seen[j])
        invariant near.Some? ==> forall j | 0 <= j < k :: Abs(seen[j] - near.value[j]) <= axes[j].tolerance
      {
        ghost var before := bus.world.wire;
        var code, state := Query(k, enabling);
        forall j | 0 <= j <= k && enabling && (j < k || code == Ok)
          ensures Tells(Enable, start, bus.world.wire, bus.motors[j])
        {
          if j < k {
            TellsOnward(Enable, start, start, before, bus.world.wire, bus.motors[j]);
          } else {
            TellsOnward(Enable, start, before, bus.world.wire, bus.world.wire, bus.motors[k]);
          }
        }
        var joint := Accept(k, code, state, status);
        if joint.None? || (near.Some? && Abs(joint.value - near.value[k]) > axes[k].tolerance) {
          return false, seen;
        }
        position, last := position[k := joint.value], last[k := joint.value];
        command := command[k := Finite(joint.value)];
        seen := seen + [joint.value];
      }
      return true, seen;
    }

    /** Survey, enable, survey again, open control, and send one batch that holds every axis where it was seen. */
    method Activate(now: int) returns (r: Outcome, ghost before: seq<real>)
      requires Valid() && !active
      modifies this, Owned()
      ensures Valid() && bus == old(bus) && r in {Done, Refused, Failed} && (r == Done <==> active)
      ensures r == Done ==> old(configured) && !old(fault) && mayEnable
      ensures r == Done ==> trace == [Batch(now, position)] && last == position && holdPending
      ensures r == Done ==> forall k | 0 <= k < |axes| :: command[k] == Finite(position[k])
      ensures r == Done ==> Bounded(axes, before) && Near(position, before) && Holds(position)
      ensures r == Done ==>
        |bus.motors| == |axes| && TellsAll(Enable, old(bus.world.wire), bus.world.wire, bus.motors)
      ensures r == Refused ==> enableAttempted == old(enableAttempted) && fault == old(fault)
      ensures r == Failed ==> fault
    {
      hide Sound;
      hide Fitted;
      hide Paced;
      hide Axis.Valid;
      hide TellsAll;
      hide Targets;
      hide DamiaoBus.BatchFrames;
      hide Near;
      before := [];
      if !configured || fault || !mayEnable {
        return Refused, before;
      }
      var good, seen := Survey(0, None, false);
      before := seen;
      if !good {
        return Refused, before;
      }
      BoundedFits(axes, before);
      hide Bounded;
      enableAttempted := true;
      ghost var start, surveyed := old(bus.world.wire), bus.world.wire;
      good := Engage(seen);
      if good {
        AllOnward(Enable, start, surveyed, bus.world.wire, bus.world.wire, bus.motors);
        HoldBegins(now);
        return Done, before;
      }
      fault := true;
      var disabled := DisableAll();
      return Failed, before;
    }

    /** The hold batch is the first of a new record. */
    method HoldBegins(now: int)
      requires Valid() && configured && !active && Bounded(axes, last)
      modifies this`lastSentAt, this`holdPending, this`active, this`trace
      ensures Valid() && active && holdPending && trace == [Batch(now, last)]
    {
      hide Sound;
      hide Fitted;
      hide Paced;
      hide Axis.Valid;
      FirstBatchIsPaced(axes, Batch(now, last));
      lastSentAt, holdPending, active := Some(now), true, true;
      trace := [Batch(now, last)];
    }

    /** Every axis is within its activation tolerance of where it was seen before. */
    predicate Near(a: seq<real>, b: seq<real>) {
      |a| == |b| == |axes| && forall k | 0 <= k < |axes| :: Abs(a[k] - b[k]) <= axes[k].tolerance
    }

    /** The last frames on the wire are targets at these joint positions, one for every axis. */
    predicate Holds(joints: seq<real>)
      reads this, bus
    {
      && bus != null && |joints| == |axes| == |bus.motors| && |axes| <= |bus.world.wire|
      && bus.world.wire[|bus.world.wire| - |axes|..]
           == DamiaoBus.BatchFrames(bus.motors, Targets(axes, joints), |axes|)
    }

    /** The part of an activation from the first enable on. */
    method Engage(before: seq<real>) returns (good: bool)
      requires Valid() && configured && !active && |before| == |axes|
      modifies this`position, this`command, this`last, bus
      ensures Valid() && bus.motors == old(bus.motors) && (good ==> Bounded(axes, position) && last == position)
      ensures good ==> forall k | 0 <= k < |axes| :: command[k] == Finite(position[k])
      ensures good ==> Near(position, before) && Holds(position)
      ensures |bus.motors| == |axes| && old(bus.world.wire) <= bus.world.wire
      ensures good ==> TellsAll(Enable, old(bus.world.wire), bus.world.wire, bus.motors)
    {
      hide TellsAll;
      hide Holds;
      hide Near;
      hide Bounded;
      hide Sound;
      hide Fitted;
      ghost var start := bus.world.wire;
      good := EnableAll(before);
      if good {
        ghost var enabled := bus.world.wire;
        good := BeginHolding();
        if good { AllOnward(Enable, start, start, enabled, bus.world.wire, bus.motors); }
      }
    }

    /** Enables axis by axis, and then looks at all of them again. */
    method EnableAll(before: seq<real>) returns (good: bool)
      requires Valid() && configured && !active && |before| == |axes|
      modifies this`position, this`command, this`last, bus
      ensures Valid() && bus.motors == old(bus.motors) && (good ==> Bounded(axes, position) && last == position)
      ensures good ==> forall k | 0 <= k < |axes| :: command[k] == Finite(position[k])
      ensures good ==> Near(position, before)
      ensures |bus.motors| == |axes| && old(bus.world.wire) <= bus.world.wire
      ensures good ==> TellsAll(Enable, old(bus.world.wire), bus.world.wire, bus.motors)
    {
      hide TellsAll;
      hide Sound;
      hide Fitted;
      hide Bounded;
      ghost var start := bus.world.wire;
      var seen;
      good, seen := Survey(1, Some(before), true);
      if good {
        ghost var enabled := bus.world.wire;
        good, seen := Survey(1, Some(before), false);
        AllOnward(Enable, start, start, enabled, bus.world.wire, bus.motors);
      }
    }

    /** Opens control and sends the batch that holds every axis. */
    method BeginHolding() returns (good: bool)
      requires Valid() && configured && !active && Bounded(axes, position)
      modifies bus
      ensures Valid() && bus.motors == old(bus.motors) && (good ==> Holds(position))
      ensures old(bus.world.wire) <= bus.world.wire
    {
      hide Sound;
      hide Fitted;
      hide Bounded;
      hide Bus.Promoted;
      hide Targets;
      hide DamiaoBus.BatchFrames;
      var begun := bus.BeginControl();
      good := begun == Ok;
      if good {
        var attempts;
        good, attempts := SendJoints(position);
      }
    }

    method Deactivate() returns (r: Outcome)
      requires Valid()
      modifies this, Owned()
      ensures Valid() && bus == old(bus) && r in {Done, Failed} && (r == Done && bus != null ==> !active)
        && (r == Failed ==> fault)
      ensures r == Done && bus != null ==>
        forall k | 0 <= k < |axes| :: command[k] == Finite(position[k]) && last[k] == position[k]
    {
      hide Sound;
      hide Fitted;
      if bus == null {
        return Done;
      }
      var all := DisableAll();
      if !all {
        fault := true;
        return Failed;
      }
      active, lastSentAt, holdPending := false, None, false;
      command := seq(|axes|, i requires 0 <= i < |axes| reads this =>
        if i < |position| then Finite(position[i]) else NonFinite);
      last := position;
      return Done;
    }

    // ----- Reading -----

    /** Publishes the positions of all axes, or of none: one sample that is unfit is a fault. */
    method Read() returns (r: Outcome)
      requires Valid()
      modifies this`fault, this`position, Owned()
      ensures Valid() && bus == old(bus) && r in {Done, Skipped, Failed}
      ensures r == Done ==> bus != null && |bus.slots| == |axes| && !fault && forall k | 0 <= k < |axes| ::
        && bus.link.FeedbackCode(bus.slots[k]) == Ok && bus.slots[k].state.status == (if active then 1 else 0)
        && axes[k].Motor(position[k]) == bus.slots[k].state.position && (active ==> axes[k].Within(position[k]))
      ensures r != Done ==> position == old(position) && (r == Failed && old(configured) ==> fault)
    {
      hide Sound;
      hide Fitted;
      hide Paced;
      hide Link.FeedbackCode;
      hide Axis.Motor;
      hide Axis.Joint;
      if !configured || fault {
        return Failed;
      }
      assert |bus.motors| == |axes| by { FittedFits(axes, bus.motors); }
      var busy: bool, recent: bool := *, *;
      if busy && recent {
        return Skipped;
      }
      if busy {
        fault := true;
        return Failed;
      }
      var code, states := bus.SnapshotAll();
      var good, joints := Decode(states);
      if code != Ok || !good {
        fault := true;
        return Failed;
      }
      position := joints;
      return Done;
    }

    /** The joint positions of all samples, if every one of them is fit to be shown. */
    method Decode(states: seq<MotorState>) returns (good: bool, joints: seq<real>)
      requires |states| == |axes| && forall k | 0 <= k < |axes| :: axes[k].Valid()
      ensures good ==> |joints| == |axes| && forall k | 0 <= k < |axes| ::
        && states[k].status == (if active then 1 else 0) && axes[k].Motor(joints[k]) == states[k].position
        && (active ==> axes[k].Within(joints[k]))
    {
      hide Axis.Motor;
      hide Axis.Joint;
      joints := [];
      for k := 0 to |axes|
        invariant |joints| == k
        invariant forall j | 0 <= j < k ::
          && states[j].status == (if active then 1 else 0) && axes[j].Motor(joints[j]) == states[j].position
          && (active ==> axes[j].Within(joints[j]))
      {
        var joint := axes[k].Joint(states[k].position);
        ConversionRoundTrips(axes[k], joint, states[k].position);
        if !states[k].valid || states[k].status != (if active then 1 else 0) || (active && !axes[k].Within(joint)) {
          return false, joints;
        }
        joints := joints + [joint];
      }
      good := true;
    }

    // ----- Writing -----

    /** Is a batch to be sent at this time, with all commands fit to be sent? */
    predicate Due(now: int)
      reads this
    {
      && active && !fault && lastSentAt.Some? && 0 <= now - lastSentAt.value <= maxControlPeriod
      && (holdPending ==> 10 * Millisecond <= now - lastSentAt.value)
      && |command| == |last| == |axes|
      && forall k | 0 <= k < |axes| :: axes[k].Valid() && command[k].Finite? && axes[k].Within(command[k].value)
    }

    /** When a batch is due, condition by condition. */
    lemma DueIff(now: int)
      requires Valid()
      ensures Due(now) <==>
        && active && !fault && 0 <= now - lastSentAt.value <= maxControlPeriod
        && (holdPending ==> 10000000 <= now - lastSentAt.value)
        && forall k | 0 <= k < |axes| ::
          command[k].Finite? && axes[k].minPosition <= command[k].value <= axes[k].maxPosition
    {
    }

    function NextJoints(now: int): seq<real>
      requires Due(now)
      reads this
    {
      seq(|axes|, k requires 0 <= k < |axes| && Due(now) reads this =>
        LimitStep(command[k].value, last[k], axes[k].maxVelocity, Seconds(now - lastSentAt.value)))
    }

    /**
     Sends one batch of step-limited commands. Bad timing, a command out of limits or a refused batch latches the
     fault and leaves the record of what was sent alone. `attempts` counts the frames handed to the transport.
     */
    method Write(now: int) returns (r: Outcome, attempts: nat)
      requires Valid()
      modifies this, Owned()
      ensures Valid() && bus == old(bus) && active == old(active) && position == old(position)
        && command == old(command)
      ensures r in {Done, Skipped, Failed} && (r == Done ==> attempts == |axes| && old(Due(now)))
        && (r == Skipped ==> attempts == 0)
      ensures r == Done ==>
        last == old(NextJoints(now)) && trace == old(trace) + [Batch(now, last)]
        && lastSentAt == Some(now)
      ensures r == Done ==> forall k | 0 <= k < |axes| ::
        last[k] == LimitStep(command[k].value, old(last)[k], axes[k].maxVelocity, Seconds(now - old(lastSentAt).value))
      ensures r != Done ==> trace == old(trace) && last == old(last) && lastSentAt == old(lastSentAt)
      ensures r == Failed ==> fault && (old(active) && !old(fault) ==> bus.link.mode != Control)
      ensures r == Done ==>
        && old(active) && !old(fault) && !holdPending
        && 0 <= now - old(lastSentAt).value <= maxControlPeriod
        && (old(holdPending) ==> 10000000 <= now - old(lastSentAt).value)
        && forall k | 0 <= k < |axes| ::
          command[k].Finite? && axes[k].minPosition <= command[k].value <= axes[k].maxPosition
      ensures r == Skipped <==>
        !old(fault)
        && (old(active) ==> old(holdPending) && 0 <= now - old(lastSentAt).value <= maxControlPeriod
                            && now - old(lastSentAt).value < 10000000)
      ensures r == Done ==>
        && |bus.motors| == |axes|
        && bus.world.wire == old(bus.world.wire) + DamiaoBus.BatchFrames(bus.motors, Targets(axes, last), |axes|)
      ensures old(Due(now)) && old(bus.link.mode) == Control ==>
        (attempts > 0 <==>
          old(Fresh(bus.link, bus.slots)) && forall k | 0 <= k < |axes| :: Lossless(axes[k], old(NextJoints(now))[k]))
      ensures !old(Due(now)) ==> attempts == 0
    {
      hide Sound;
      hide Fitted;
      hide Lossless;
      hide Fresh;
      hide Paced;
      hide Targets;
      hide LimitStep;
      hide DamiaoBus.BatchFrames;
      hide Axis.Valid;
      attempts := 0;
      if fault {
        return Failed, 0;
      }
      if !active {
        return Skipped, 0;
      }
      var elapsed := now - lastSentAt.value;
      if elapsed < 0 || elapsed > maxControlPeriod {
        FailWrite();
        return Failed, 0;
      }
      if holdPending && elapsed < 10 * Millisecond {
        return Skipped, 0;
      }
      r, attempts := WriteCycle(now);
    }

    /** The part of a write from the moment that its time has come. */
    method WriteCycle(now: int) returns (r: Outcome, attempts: nat)
      requires Valid() && active && !fault && 0 <= now - lastSentAt.value <= maxControlPeriod
      requires holdPending ==> 10 * Millisecond <= now - lastSentAt.value
      modifies this`last, this`lastSentAt, this`trace, this`fault, this`holdPending, bus
      ensures Valid() && r in {Done, Failed} && !holdPending
      ensures r == Done ==> attempts == |axes| && old(Due(now))
      ensures r == Done ==>
        last == old(NextJoints(now)) && trace == old(trace) + [Batch(now, last)]
        && lastSentAt == Some(now)
      ensures r == Done ==>
        && |bus.motors| == |axes|
        && bus.world.wire == old(bus.world.wire) + DamiaoBus.BatchFrames(bus.motors, Targets(axes, last), |axes|)
      ensures r == Failed ==> trace == old(trace) && last == old(last) && lastSentAt == old(lastSentAt)
      ensures r == Failed ==> fault && bus.link.mode != Control
      ensures old(Due(now)) && old(bus.link.mode) == Control ==>
        (attempts > 0 <==>
          old(Fresh(bus.link, bus.slots)) && forall k | 0 <= k < |axes| :: Lossless(axes[k], old(NextJoints(now))[k]))
      ensures !old(Due(now)) ==> attempts == 0
    {
      hide Sound;
      hide Fitted;
      hide Lossless;
      hide Fresh;
      hide Paced;
      hide Targets;
      hide DamiaoBus.BatchFrames;
      var good, bounded := Limit(now - lastSentAt.value);
      attempts := 0;
      if !good {
        holdPending := false;
        FailWrite();
        return Failed, 0;
      }
      assert bounded == NextJoints(now);
      holdPending := false;
      hide LimitStep;
      hide MaxStep;
      r, attempts := SendStep(now, bounded);
    }

    /** Sends what one cycle has limited, and records it if the bus took all of it. */
    method SendStep(now: int, bounded: seq<real>) returns (r: Outcome, attempts: nat)
      requires Valid() && active && Bounded(axes, bounded) && Reaches(axes, trace[|trace| - 1], Batch(now, bounded))
      modifies this`last, this`lastSentAt, this`trace, this`fault, bus
      ensures Valid() && r in {Done, Failed} && (r == Failed ==> fault)
      ensures r == Done ==>
        attempts == |axes| && last == bounded && lastSentAt == Some(now) && trace == old(trace) + [Batch(now, bounded)]
      ensures r == Failed ==> last == old(last) && lastSentAt == old(lastSentAt) && trace == old(trace)
      ensures r == Failed ==> bus.link.mode != Control
      ensures r == Done ==>
        && |bus.motors| == |axes|
        && bus.world.wire == old(bus.world.wire) + DamiaoBus.BatchFrames(bus.motors, Targets(axes, bounded), |axes|)
      ensures old(bus.link.mode) == Control ==>
        (attempts > 0 <==>
          old(Fresh(bus.link, bus.slots))
          && forall k | 0 <= k < |axes| :: Lossless(axes[k], bounded[k]))
    {
      hide Sound;
      hide Fitted;
      hide Lossless;
      hide Fresh;
      hide Reaches;
      ghost var batch := Batch(now, bounded);
      PacedOnward(axes, trace, batch);
      hide Paced;
      hide Bounded;
      var sent;
      sent, attempts := SendJoints(bounded);
      if !sent {
        FailWrite();
        return Failed, attempts;
      }
      lastSentAt, last := Some(now), bounded;
      trace := trace + [batch];
      return Done, attempts;
    }

    method FailWrite()
      requires Valid() && bus != null
      modifies this`fault, bus
      ensures Valid() && fault && bus.link.mode != Control
    {
      hide Sound;
      hide Fitted;
      fault := true;
      var ended := bus.EndControl();
    }

    /** Hands joint commands within limits to the bus, whose checks only stale feedback or a lost number can fail. */
    method SendJoints(joints: seq<real>) returns (sent: bool, attempts: nat)
      requires Valid() && configured && Bounded(axes, joints)
      modifies bus
      ensures Valid() && bus.motors == old(bus.motors) && (sent ==> attempts == |axes|)
      ensures |bus.motors| == |axes| && attempts <= |axes|
      ensures attempts > 0 ==>
        bus.world.wire == old(bus.world.wire) + DamiaoBus.BatchFrames(bus.motors, Targets(axes, joints), attempts)
      ensures attempts == 0 ==> bus.world.wire == old(bus.world.wire)
      ensures old(bus.link.mode) == Control ==>
        (attempts > 0 <==>
          old(Fresh(bus.link, bus.slots))
          && forall k | 0 <= k < |axes| :: Lossless(axes[k], joints[k]))
    {
      hide Sound;
      hide Fitted;
      hide Lossless;
      hide Fresh;
      hide DamiaoBus.CommandCode;
      hide DamiaoBus.Batched;
      hide Bounded;
      hide Target;
      hide Axis.Valid;
      ghost var before := bus.View();
      BoundedFits(axes, joints);
      if before.link.mode == Control {
        TargetsPassIff(axes, before, joints);
      }
      FittedFits(axes, bus.motors);
      var code, results;
      code, results, attempts := bus.SendBatch(Targets(axes, joints));
      if attempts > 0 {
        DamiaoBus.BatchedWire(before, bus.View(), Targets(axes, joints), attempts, results, code);
      }
      sent := code == Ok;
    }

    /** The step-limited commands of a cycle, if every command is finite and within limits. */
    method Limit(elapsed: int) returns (good: bool, bounded: seq<real>)
      requires Valid() && active && 0 <= elapsed
      ensures good <==> forall k | 0 <= k < |axes| :: command[k].Finite? && axes[k].Within(command[k].value)
      ensures good ==> |bounded| == |axes| && forall k | 0 <= k < |axes| ::
        bounded[k] == LimitStep(command[k].value, last[k], axes[k].maxVelocity, Seconds(elapsed))
      ensures good ==>
        Bounded(axes, bounded)
        && Reaches(axes, trace[|trace| - 1], Batch(lastSentAt.value + elapsed, bounded))
    {
      hide Sound;
      hide Fitted;
      hide LimitStep;
      hide MaxStep;
      bounded := [];
      for k := 0 to |axes|
        invariant |bounded| == k
        invariant forall j | 0 <= j < k :: command[j].Finite? && axes[j].Within(command[j].value)
        invariant forall j | 0 <= j < k ::
          bounded[j] == LimitStep(command[j].value, last[j], axes[j].maxVelocity, Seconds(elapsed))
        invariant forall j | 0 <= j < k :: axes[j].Within(bounded[j])
        invariant forall j | 0 <= j < k ::
          Abs(bounded[j] - last[j]) <= 0.9 * Mul(axes[j].maxVelocity, elapsed as real / 1000000000.0)
      {
        if !command[k].Finite? || !axes[k].Within(command[k].value) {
          return false, bounded;
        }
        var x := axes[k];
        LimitedStep(command[k].value, last[k], x.maxVelocity, Seconds(elapsed));
        assert x.Within(last[k]) by { LastIsBounded(k); }
        bounded := bounded + [LimitStep(command[k].value, last[k], x.maxVelocity, Seconds(elapsed))];
      }
      good := true;
    }

    lemma LastIsBounded(k: nat)
      requires Valid() && active && k < |axes|
      ensures axes[k].Within(last[k])
    {
    }
  }
}
