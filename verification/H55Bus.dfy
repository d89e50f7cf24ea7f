/**
 The wheel bus. One thread commands and one receives; `Interfere` stands for whatever the
 receiver does while the commanding thread holds no lock. The trace records what was put on
 the wire and what was learned from it.
 */
module H55Bus {
  import opened Numbers
  import opened Binary32
  import opened Can
  import opened Protocol
  import opened H55Protocol

  datatype MotorConfig = MotorConfig(
    address: Address, mapping: Mapping, maximumSpeed: real, timeoutRaw: Bits, firmware: Bits, subVersion: Bits)

  datatype Config = Config(
    motors: seq<MotorConfig>, writeProtection: bool, replyTimeout: int, feedbackTimeout: int, tolerance: real,
    minVoltage: real, maxVoltage: real, maxTemperature: real)
  {
    /** What the constructor demands. */
    predicate Valid() {
      && |motors| == 2 && 0 < replyTimeout && 0 < feedbackTimeout && 0.0 <= tolerance
      && 0.0 < minVoltage < maxVoltage && 0.0 < maxTemperature
      && (forall i | 0 <= i < 2 ::
            motors[i].address.Valid() && motors[i].mapping.Valid() && 0.0 < motors[i].maximumSpeed
              && motors[i].timeoutRaw != 0)
      && motors[0].address.esc != motors[1].address.esc && motors[0].address.mst != motors[1].address.mst
    }

    /** The registers that identify wheel `i`, with the values they must have. */
    function Identity(i: nat): seq<(Byte, real)>
      requires Valid() && i < 2
    {
      var m := motors[i];
      [(0x08, m.address.esc as real), (0x07, m.address.mst as real), (0x0A, 3.0),
       (0x15, m.mapping.position.value), (0x16, m.mapping.velocity.value), (0x17, m.mapping.torque.value),
       (0x23, 4.0), (0x0E, m.firmware as real), (0x24, m.subVersion as real)]
    }

    /** The two protections of wheel `i`: communication timeout and speed limit. */
    function Protection(i: nat): seq<(Byte, real)>
      requires Valid() && i < 2
    {
      [(0x09, motors[i].timeoutRaw as real), (0x06, motors[i].maximumSpeed)]
    }

    function Slack(expected: real): real { Mul(tolerance, Max(1.0, Abs(expected))) }

    /** Integers must match exactly, floats up to the tolerance. */
    predicate Matches(v: RegisterValue, expected: real) {
      Abs(NumberOf(v) - expected) <= if v.Word? then 0.0 else Slack(expected)
    }
  }

  // ----- The trace -----

  datatype Event =
    | Restarted
    | Sent(frame: CanFrame, verified: bool, protected: bool)
    | Learned(wheel: nat, rid: Byte, value: RegisterValue)
    | Confirmed(status: nat, since: int, states: seq<MotorState>)
    | Cleared(speeds: seq<Double>, now: int, states: seq<MotorState>)

  predicate IsRead(f: CanFrame) { f.id == 0x7FF && f.data[2] == 0x33 }

  predicate IsProtectionWrite(f: CanFrame) { f.id == 0x7FF && f.data[2] == 0x55 }

  /** A write of a protection carries what is configured for the wheel it goes to, and is asked for. */
  predicate WritesProtection(c: Config, f: CanFrame)
    requires c.Valid()
  {
    c.writeProtection && exists i | 0 <= i < 2 ::
      || IsRequest(f, c.motors[i].address.esc, 0x55, 0x09, 8, c.motors[i].timeoutRaw)
      || IsRequest(f, c.motors[i].address.esc, 0x55, 0x06, 8, ToBits(c.motors[i].maximumSpeed))
  }

  predicate IsEnable(f: CanFrame) { f.id != 0x7FF && f.length == 8 && f.data[7] == 0xFC }

  /** A velocity frame that asks for motion. */
  predicate IsDrive(f: CanFrame) { f.id != 0x7FF && f.length == 4 && f.data[..4] != [0, 0, 0, 0] }

  /** Register `item` of a wheel has been read with an acceptable value since verification last began. */
  predicate Proven(c: Config, trace: seq<Event>, wheel: nat, item: (Byte, real), exact: bool) {
    exists k | 0 <= k < |trace| :: IsReading(c, trace[k], wheel, item, exact) && NoRestart(trace, k)
  }

  predicate NoRestart(trace: seq<Event>, from: nat) { forall j | from <= j < |trace| :: !trace[j].Restarted? }

  predicate IsReading(c: Config, e: Event, wheel: nat, item: (Byte, real), exact: bool) {
    e.Learned? && e.wheel == wheel && e.rid == item.0
    && if exact then c.Matches(e.value, item.1) else Abs(NumberOf(e.value) - item.1) <= c.Slack(item.1)
  }

  predicate Identified(c: Config, trace: seq<Event>)
    requires c.Valid()
  {
    forall i, k | 0 <= i < 2 && 0 <= k < |c.Identity(i)| :: Proven(c, trace, i, c.Identity(i)[k], true)
  }

  predicate Protected(c: Config, trace: seq<Event>)
    requires c.Valid()
  {
    forall i, k | 0 <= i < 2 && 0 <= k < |c.Protection(i)| :: Proven(c, trace, i, c.Protection(i)[k], false)
  }

  predicate Fresh(c: Config, i: nat, s: MotorState, now: int) {
    s.valid && s.status == 1 && now - s.receivedAt <= c.feedbackTimeout
  }

  /** Both wheels are enabled and fresh, and both speeds are finite and within their limits. */
  predicate MayDrive(c: Config, e: Event)
    requires c.Valid()
  {
    && e.Cleared? && |e.speeds| == 2 && |e.states| == 2
    && forall i | 0 <= i < 2 ::
         Fresh(c, i, e.states[i], e.now) && e.speeds[i].Finite? && Abs(e.speeds[i].value) <= c.motors[i].maximumSpeed
  }

  /** Whether the event at `k` may stand where it does. */
  predicate Lawful(c: Config, trace: seq<Event>, k: nat)
    requires c.Valid() && k < |trace|
  {
    match trace[k]
    case Restarted => true
    case Sent(f, verified, protected) =>
      && (!verified ==> IsRead(f))
      && (!IsRead(f) ==> Identified(c, trace[..k]))
      && (IsEnable(f) ==> protected && Protected(c, trace[..k]))
      && (IsProtectionWrite(f) ==> k > 0 && trace[k - 1].Confirmed? && trace[k - 1].status == 0)
      && (IsProtectionWrite(f) ==> WritesProtection(c, f))
      && (IsDrive(f) ==> (k > 0 && trace[k - 1].Cleared?) || (k > 1 && trace[k - 2].Cleared? && trace[k - 1].Sent?))
    case Learned(_, rid, v) => WheelRegister(rid) == Some(v.Word?)
    case Confirmed(status, since, states) =>
      |states| == 2
      && forall i | 0 <= i < 2 :: states[i].valid && since <= states[i].receivedAt && states[i].status == status
    case Cleared(_, _, _) => MayDrive(c, trace[k])
  }

  predicate Safe(c: Config, trace: seq<Event>)
    requires c.Valid()
  {
    forall k | 0 <= k < |trace| :: Lawful(c, trace, k)
  }

  predicate Sound(c: Config, verified: bool, protection: bool, trace: seq<Event>) {
    && c.Valid() && Safe(c, trace)
    && (verified ==> Identified(c, trace))
    && (protection ==> verified && Protected(c, trace))
  }

  // ----- What a verification establishes, register by register -----

  /** Since verification last began, this register of a wheel was read as this integer. */
  predicate ReadWord(trace: seq<Event>, wheel: nat, rid: Byte, n: Bits) {
    exists k | 0 <= k < |trace| :: trace[k] == Learned(wheel, rid, Word(n)) && NoRestart(trace, k)
  }

  predicate IsNear(e: Event, wheel: nat, rid: Byte, x: real, slack: real) {
    e.Learned? && e.wheel == wheel && e.rid == rid && Abs(NumberOf(e.value) - x) <= slack
  }

  /** Since verification last began, this register was read within the configured relative tolerance of a number. */
  predicate ReadNear(c: Config, trace: seq<Event>, wheel: nat, rid: Byte, x: real) {
    exists k | 0 <= k < |trace| ::
      IsNear(trace[k], wheel, rid, x, Mul(c.tolerance, Max(1.0, Abs(x)))) && NoRestart(trace, k)
  }

  predicate IsWithin(e: Event, wheel: nat, rid: Byte, low: real, high: real) {
    e.Learned? && e.wheel == wheel && e.rid == rid && low <= NumberOf(e.value) <= high
  }

  /** Since verification last began, this register was read within these ends. */
  predicate ReadWithin(trace: seq<Event>, wheel: nat, rid: Byte, low: real, high: real) {
    exists k | 0 <= k < |trace| :: IsWithin(trace[k], wheel, rid, low, high) && NoRestart(trace, k)
  }

  /** Address, velocity mode, mapping, versions and protections of wheel `i` are as configured. */
  predicate Established(c: Config, trace: seq<Event>, i: nat)
    requires c.Valid() && i < 2
  {
    var m := c.motors[i];
    && ReadWord(trace, i, 0x08, m.address.esc) && ReadWord(trace, i, 0x07, m.address.mst)
    && ReadWord(trace, i, 0x0A, 3) && ReadWord(trace, i, 0x23, 4)
    && ReadWord(trace, i, 0x0E, m.firmware) && ReadWord(trace, i, 0x24, m.subVersion)
    && ReadNear(c, trace, i, 0x15, m.mapping.position.value)
    && ReadNear(c, trace, i, 0x16, m.mapping.velocity.value)
    && ReadNear(c, trace, i, 0x17, m.mapping.torque.value)
    && ReadNear(c, trace, i, 0x09, m.timeoutRaw as real) && ReadNear(c, trace, i, 0x06, m.maximumSpeed)
  }

  /** Supply voltage and both temperatures of wheel `i` were in their ranges. */
  predicate Started(c: Config, trace: seq<Event>, i: nat) {
    && ReadWithin(trace, i, 0x3C, c.minVoltage, c.maxVoltage)
    && ReadWithin(trace, i, 0x3D, 0.0, c.maxTemperature)
    && ReadWithin(trace, i, 0x3E, 0.0, c.maxTemperature)
  }

  lemma WordIsRead(c: Config, trace: seq<Event>, wheel: nat, rid: Byte, n: Bits)
    requires c.Valid() && Safe(c, trace) && Proven(c, trace, wheel, (rid, n as real), true)
    requires WheelRegister(rid) == Some(true)
    ensures ReadWord(trace, wheel, rid, n)
  {
    var k :| 0 <= k < |trace| && IsReading(c, trace[k], wheel, (rid, n as real), true) && NoRestart(trace, k);
    assert Lawful(c, trace, k);
    assert trace[k] == Learned(wheel, rid, Word(n));
  }

  lemma NumberIsRead(c: Config, trace: seq<Event>, wheel: nat, rid: Byte, x: real, exact: bool)
    requires Proven(c, trace, wheel, (rid, x), exact)
    requires exact ==> c.Valid() && Safe(c, trace) && WheelRegister(rid) == Some(false)
    ensures ReadNear(c, trace, wheel, rid, x)
  {
    var k :| 0 <= k < |trace| && IsReading(c, trace[k], wheel, (rid, x), exact) && NoRestart(trace, k);
    if exact { assert Lawful(c, trace, k); }
    assert IsNear(trace[k], wheel, rid, x, Mul(c.tolerance, Max(1.0, Abs(x))));
  }

  /** All that was demanded has been read, as what it was demanded to be. */
  lemma AllIsEstablished(c: Config, trace: seq<Event>, i: nat)
    requires c.Valid() && Safe(c, trace) && Identified(c, trace) && Protected(c, trace) && i < 2
    ensures Established(c, trace, i)
  {
    hide Safe;
    hide Proven;
    hide ReadWord;
    hide ReadNear;
    hide WheelRegister;
    var m := c.motors[i];
    forall k | 0 <= k < 9 ensures Proven(c, trace, i, c.Identity(i)[k], true) {}
    assert c.Identity(i)[0] == (0x08, m.address.esc as real) && c.Identity(i)[1] == (0x07, m.address.mst as real);
    assert c.Identity(i)[2] == (0x0A, 3 as real) && c.Identity(i)[6] == (0x23, 4 as real);
    assert c.Identity(i)[7] == (0x0E, m.firmware as real) && c.Identity(i)[8] == (0x24, m.subVersion as real);
    assert c.Identity(i)[3] == (0x15, m.mapping.position.value) && c.Identity(i)[4] == (0x16, m.mapping.velocity.value);
    assert c.Identity(i)[5] == (0x17, m.mapping.torque.value);
    RegisterKinds();
    WordIsRead(c, trace, i, 0x08, m.address.esc);
    WordIsRead(c, trace, i, 0x07, m.address.mst);
    WordIsRead(c, trace, i, 0x0A, 3);
    WordIsRead(c, trace, i, 0x23, 4);
    WordIsRead(c, trace, i, 0x0E, m.firmware);
    WordIsRead(c, trace, i, 0x24, m.subVersion);
    NumberIsRead(c, trace, i, 0x15, m.mapping.position.value, true);
    NumberIsRead(c, trace, i, 0x16, m.mapping.velocity.value, true);
    NumberIsRead(c, trace, i, 0x17, m.mapping.torque.value, true);
    assert Proven(c, trace, i, c.Protection(i)[0], false) && Proven(c, trace, i, c.Protection(i)[1], false);
    NumberIsRead(c, trace, i, 0x09, m.timeoutRaw as real, false);
    NumberIsRead(c, trace, i, 0x06, m.maximumSpeed, false);
  }

  lemma RegisterKinds()
    ensures forall rid: Byte | rid in {0x08, 0x07, 0x0A, 0x23, 0x0E, 0x24} :: WheelRegister(rid) == Some(true)
    ensures forall rid: Byte | rid in {0x15, 0x16, 0x17} :: WheelRegister(rid) == Some(false)
  {
  }

  lemma EstablishedNow(c: Config, trace: seq<Event>)
    requires Sound(c, true, true, trace)
    ensures c.Valid() && Established(c, trace, 0) && Established(c, trace, 1)
  {
    AllIsEstablished(c, trace, 0);
    AllIsEstablished(c, trace, 1);
    hide Established;
  }

  lemma WithinStays(a: seq<Event>, b: seq<Event>, wheel: nat, rid: Byte, low: real, high: real)
    requires Extends(a, b)
    ensures ReadWithin(a, wheel, rid, low, high) ==> ReadWithin(b, wheel, rid, low, high)
  {
    hide IsWithin;
    if ReadWithin(a, wheel, rid, low, high) {
      var k :| 0 <= k < |a| && IsWithin(a[k], wheel, rid, low, high) && NoRestart(a, k);
      assert b[k] == a[k] && NoRestart(b, k);
    }
  }

  lemma StartedStays(c: Config, a: seq<Event>, b: seq<Event>, i: nat)
    requires Extends(a, b)
    ensures Started(c, a, i) ==> Started(c, b, i)
  {
    WithinStays(a, b, i, 0x3C, c.minVoltage, c.maxVoltage);
    WithinStays(a, b, i, 0x3D, 0.0, c.maxTemperature);
    WithinStays(a, b, i, 0x3E, 0.0, c.maxTemperature);
    hide ReadWithin;
  }

  lemma LearnedIsWithin(trace: seq<Event>, wheel: nat, rid: Byte, low: real, high: real)
    requires trace != [] && IsWithin(trace[|trace| - 1], wheel, rid, low, high)
    ensures ReadWithin(trace, wheel, rid, low, high)
  {
    assert NoRestart(trace, |trace| - 1);
  }

  // ----- Which requests and commands are sent -----

  /** A read: at most its own request is sent, and at most its own register learned. */
  predicate ReadIn(c: Config, a: seq<Event>, b: seq<Event>, wheel: nat, rid: Byte)
    requires |c.motors| == 2
  {
    && a <= b && |b| <= |a| + 2
    && (|b| > |a| ==>
          wheel < 2 && b[|a|].Sent? && IsRequest(b[|a|].frame, c.motors[wheel].address.esc, 0x33, rid, 8, 0))
    && (|b| > |a| + 1 ==> b[|a| + 1].Learned? && b[|a| + 1].wheel == wheel && b[|a| + 1].rid == rid)
  }

  lemma NothingRead(c: Config, trace: seq<Event>, wheel: nat, rid: Byte)
    requires |c.motors| == 2
    ensures ReadIn(c, trace, trace, wheel, rid)
  {
  }

  lemma OneRead(c: Config, a: seq<Event>, b: seq<Event>, wheel: nat, rid: Byte, request: CanFrame)
    requires |c.motors| == 2 && wheel < 2 && EncodeWheelRead(c.motors[wheel].address.esc, rid) == Success(request)
    requires |a| < |b| <= |a| + 2 && a <= b && b[|a|].Sent? && b[|a|].frame == request
    requires |b| > |a| + 1 ==> b[|a| + 1].Learned? && b[|a| + 1].wheel == wheel && b[|a| + 1].rid == rid
    ensures ReadIn(c, a, b, wheel, rid)
  {
  }

  predicate IsZeroSpeed(f: CanFrame, esc: nat) {
    f.id == esc + 0x200 && f.length == 4 && f.data == [0, 0, 0, 0, 0, 0, 0, 0]
  }

  /** This command to one of the wheels, or where that is allowed a zero speed. */
  predicate IsCommand(c: Config, f: CanFrame, command: Management, zero: bool)
    requires |c.motors| == 2
  {
    exists i | 0 <= i < 2 ::
      || IsManagement(f, c.motors[i].address.esc, Velocity, command)
      || (zero && IsZeroSpeed(f, c.motors[i].address.esc))
  }

  /** From `from` on, nothing else is sent. */
  predicate OnlySends(c: Config, trace: seq<Event>, from: nat, command: Management, zero: bool)
    requires |c.motors| == 2
  {
    forall k | from <= k < |trace| && trace[k].Sent? :: IsCommand(c, trace[k].frame, command, zero)
  }

  /** From `from` on, the command was sent to wheel `i`. */
  predicate SentTo(c: Config, trace: seq<Event>, from: nat, i: nat, command: Management)
    requires |c.motors| == 2 && i < 2
  {
    exists k | from <= k < |trace| ::
      trace[k].Sent? && IsManagement(trace[k].frame, c.motors[i].address.esc, Velocity, command)
  }

  lemma OnlyOnward(c: Config, a: seq<Event>, b: seq<Event>, from: nat, command: Management, zero: bool)
    requires |c.motors| == 2 && a <= b && from <= |a|
    requires OnlySends(c, a, from, command, zero) && OnlySends(c, b, |a|, command, zero)
    ensures OnlySends(c, b, from, command, zero)
  {
    hide IsCommand;
    forall k | from <= k < |b| && b[k].Sent?
      ensures IsCommand(c, b[k].frame, command, zero)
    {
      if k < |a| { assert b[k] == a[k]; }
    }
  }

  lemma OneMoreCommand(c: Config, trace: seq<Event>, e: Event, i: nat, command: Management, zero: bool)
    requires |c.motors| == 2 && i < 2 && e.Sent?
    requires IsManagement(e.frame, c.motors[i].address.esc, Velocity, command)
      || (zero && IsZeroSpeed(e.frame, c.motors[i].address.esc))
    ensures OnlySends(c, trace + [e], |trace|, command, zero)
    ensures IsManagement(e.frame, c.motors[i].address.esc, Velocity, command) ==>
      SentTo(c, trace + [e], |trace|, i, command)
  {
    hide IsManagement;
    hide IsZeroSpeed;
    assert (trace + [e])[|trace|] == e;
  }

  lemma NothingSent(c: Config, trace: seq<Event>, command: Management, zero: bool)
    requires |c.motors| == 2
    ensures OnlySends(c, trace, |trace|, command, zero)
  {
  }

  lemma SentStays(c: Config, a: seq<Event>, b: seq<Event>, from: nat, later: nat, i: nat, command: Management)
    requires |c.motors| == 2 && i < 2 && a <= b && from <= later && SentTo(c, a, later, i, command)
    ensures SentTo(c, b, from, i, command)
  {
    hide IsManagement;
    var k :| later <= k < |a| && a[k].Sent? && IsManagement(a[k].frame, c.motors[i].address.esc, Velocity, command);
    assert b[k] == a[k];
  }

  predicate IsCommandTo(c: Config, e: Event, i: nat, command: Management)
    requires |c.motors| == 2 && i < 2
  {
    e.Sent? && IsManagement(e.frame, c.motors[i].address.esc, Velocity, command)
  }

  /** From `from` on, the command was sent to both wheels. */
  predicate SentToBoth(c: Config, trace: seq<Event>, from: nat, command: Management)
    requires |c.motors| == 2
  {
    SentTo(c, trace, from, 0, command) && SentTo(c, trace, from, 1, command)
  }

  predicate IsZeroSpeedTo(c: Config, e: Event, i: nat)
    requires |c.motors| == 2 && i < 2
  {
    e.Sent? && IsZeroSpeed(e.frame, c.motors[i].address.esc)
  }

  lemma DisablesAreCommands(c: Config, trace: seq<Event>, from: nat)
    requires |c.motors| == 2 && OnlySends(c, trace, from, Disable, false)
    ensures OnlySends(c, trace, from, Disable, true)
  {
    hide IsManagement;
    forall k | from <= k < |trace| && trace[k].Sent?
      ensures IsCommand(c, trace[k].frame, Disable, true)
    {
      assert IsCommand(c, trace[k].frame, Disable, false);
    }
  }

  lemma ZeroIsEncoded(esc: nat)
    requires ValidEsc(esc)
    ensures EncodeVelocity(esc, Finite(0.0)).Success?
  {
    hide ToBits;
    FiniteIsInRange(0);
    hide Largest;
    hide Value;
  }

  lemma QuietEvent(c: Config, trace: seq<Event>, e: Event, from: nat, command: Management, zero: bool)
    requires |c.motors| == 2 && !e.Sent? && OnlySends(c, trace, from, command, zero)
    ensures OnlySends(c, trace + [e], from, command, zero)
  {
    hide IsCommand;
  }

  lemma ReadingIsLearned(c: Config, e: Event, wheel: nat, item: (Byte, real), exact: bool)
    requires IsReading(c, e, wheel, item, exact)
    ensures e.Learned?
  {
  }

  lemma ReadStays(c: Config, trace: seq<Event>, e: Event, wheel: nat, item: (Byte, real), exact: bool)
    ensures Proven(c, trace, wheel, item, exact) && !e.Restarted? ==> Proven(c, trace + [e], wheel, item, exact)
    ensures IsReading(c, e, wheel, item, exact) ==> Proven(c, trace + [e], wheel, item, exact)
  {
    hide IsReading;
    var more := trace + [e];
    if Proven(c, trace, wheel, item, exact) && !e.Restarted? {
      var k :| 0 <= k < |trace| && IsReading(c, trace[k], wheel, item, exact) && NoRestart(trace, k);
      assert more[k] == trace[k] && NoRestart(more, k);
    }
    if IsReading(c, e, wheel, item, exact) {
      ReadingIsLearned(c, e, wheel, item, exact);
      assert more[|trace|] == e && NoRestart(more, |trace|);
    }
  }

  /** Another lawful event keeps all that was established. */
  lemma AppendKeepsSound(c: Config, verified: bool, protection: bool, trace: seq<Event>, e: Event)
    requires Sound(c, verified, protection, trace) && Lawful(c, trace + [e], |trace|)
      && (e.Restarted? ==> !verified && !protection)
    ensures Sound(c, verified, protection, trace + [e])
  {
    var more := trace + [e];
    forall k | 0 <= k < |more|
      ensures Lawful(c, more, k)
    {
      if k < |trace| {
        assert more[..k] == trace[..k];
        assert Lawful(c, trace, k);
      }
    }
    hide Lawful;
    if !e.Restarted? { EstablishedStays(c, trace, e); }
    hide Proven;
  }

  lemma EstablishedStays(c: Config, trace: seq<Event>, e: Event)
    requires c.Valid() && !e.Restarted?
    ensures Identified(c, trace) ==> Identified(c, trace + [e])
    ensures Protected(c, trace) ==> Protected(c, trace + [e])
  {
    hide Proven;
    forall i, k | 0 <= i < 2 && 0 <= k < |c.Identity(i)|
      ensures Proven(c, trace, i, c.Identity(i)[k], true) ==> Proven(c, trace + [e], i, c.Identity(i)[k], true)
    {
      ReadStays(c, trace, e, i, c.Identity(i)[k], true);
    }
    forall i, k | 0 <= i < 2 && 0 <= k < |c.Protection(i)|
      ensures Proven(c, trace, i, c.Protection(i)[k], false) ==> Proven(c, trace + [e], i, c.Protection(i)[k], false)
    {
      ReadStays(c, trace, e, i, c.Protection(i)[k], false);
    }
  }

  lemma FlagsKeepSound(c: Config, verified: bool, protection: bool, trace: seq<Event>)
    requires Sound(c, verified, protection, trace)
    ensures Sound(c, false, false, trace)
    ensures Identified(c, trace) ==> Sound(c, true, false, trace)
    ensures verified && Protected(c, trace) ==> Sound(c, true, true, trace)
  {
  }

  lemma SoundFits(c: Config, verified: bool, protection: bool, trace: seq<Event>)
    requires Sound(c, verified, protection, trace)
    ensures c.Valid()
  {
  }

  // ----- What the encoders send -----

  lemma ReadFrameIsRead(esc: nat, rid: Byte)
    requires EncodeWheelRead(esc, rid).Success?
    ensures var f := EncodeWheelRead(esc, rid).value; IsRead(f) && !IsProtectionWrite(f) && !IsEnable(f) && !IsDrive(f)
  {
  }

  lemma ManagementFrameKind(esc: nat, m: Management)
    requires ValidEsc(esc)
    ensures var f := EncodeManagement(esc, Velocity, m).value;
      && !IsRead(f) && !IsProtectionWrite(f) && (IsEnable(f) <==> m == Enable) && !IsDrive(f)
      && IsManagement(f, esc, Velocity, m)
  {
  }

  lemma VelocityFrameKind(esc: nat, speed: Double)
    requires EncodeVelocity(esc, speed).Success?
    ensures var f := EncodeVelocity(esc, speed).value; !IsRead(f) && !IsProtectionWrite(f) && !IsEnable(f)
    ensures speed.value == 0.0 ==> !IsDrive(EncodeVelocity(esc, speed).value)
    ensures speed.value == 0.0 ==> IsZeroSpeed(EncodeVelocity(esc, speed).value, esc)
  {
    hide Largest;
    if speed.value == 0.0 {
      ZeroRoundsToZero();
      hide ToBits;
      assert EncodeVelocity(esc, speed).value.data[..4] == [0, 0, 0, 0];
      assert EncodeVelocity(esc, speed).value.data == [0, 0, 0, 0, 0, 0, 0, 0];
    }
  }

  lemma ZeroRoundsToZero()
    ensures ToBits(0.0) == 0
  {
  }

  lemma ProtectionIsConfigured(c: Config, i: nat, item: (Byte, real), f: CanFrame)
    requires c.Valid() && i < 2 && c.writeProtection
      && (item == c.Protection(i)[0] || item == c.Protection(i)[1])
    requires EncodeProtectionWrite(c.motors[i].address.esc, item.0, Finite(item.1)) == Success(f)
    ensures WritesProtection(c, f)
  {
    hide ToBits;
    hide Largest;
    var m := c.motors[i];
    assert (m.timeoutRaw as real).Floor == m.timeoutRaw;
    assert IsRequest(f, m.address.esc, 0x55, 0x09, 8, m.timeoutRaw)
      || IsRequest(f, m.address.esc, 0x55, 0x06, 8, ToBits(m.maximumSpeed));
  }

  lemma WriteFrameKind(esc: nat, rid: Byte, value: Double)
    requires EncodeProtectionWrite(esc, rid, value).Success?
    ensures var f := EncodeProtectionWrite(esc, rid, value).value;
      IsProtectionWrite(f) && !IsRead(f) && !IsEnable(f) && !IsDrive(f)
  {
  }

  /** When a frame may be sent, given what the bus has established. */
  predicate MaySend(c: Config, f: CanFrame, verified: bool, protection: bool, trace: seq<Event>)
    requires c.Valid()
  {
    && (IsProtectionWrite(f) ==> WritesProtection(c, f))
    && (verified || IsRead(f))
    && (IsEnable(f) ==> protection)
    && (IsProtectionWrite(f) ==> trace != [] && trace[|trace| - 1].Confirmed? && trace[|trace| - 1].status == 0)
    && (IsDrive(f) ==>
          || (trace != [] && trace[|trace| - 1].Cleared?)
          || (|trace| > 1 && trace[|trace| - 2].Cleared? && trace[|trace| - 1].Sent?))
  }

  lemma SendingKeepsSound(c: Config, verified: bool, protection: bool, trace: seq<Event>, f: CanFrame)
    requires Sound(c, verified, protection, trace) && MaySend(c, f, verified, protection, trace)
    ensures Sound(c, verified, protection, trace + [Sent(f, verified, protection)])
  {
    var e := Sent(f, verified, protection);
    hide Identified;
    hide Protected;
    hide IsDrive;
    hide WritesProtection;
    assert (trace + [e])[..|trace|] == trace;
    assert Lawful(c, trace + [e], |trace|);
    hide Lawful;
    AppendKeepsSound(c, verified, protection, trace, e);
  }

  const Millisecond := 1000000

  /** The trace goes on, within the same verification. */
  predicate Extends(a: seq<Event>, b: seq<Event>) { a <= b && NoRestart(b, |a|) }

  class H55Bus {
    const config: Config
    var verified: bool
    var protectionVerified: bool
    var states: seq<MotorState>
    var pending: bool
    var pendingWheel: nat
    var pendingRid: Byte
    var pendingSince: int
    var reply: CanFrame
    var now: int
    ghost var trace: seq<Event>

    ghost predicate Valid()
      reads this
    {
      Sound(config, verified, protectionVerified, trace) && |states| == 2 && pendingWheel < 2
    }

    constructor (config: Config, blank: MotorState)
      requires config.Valid()
      ensures Valid() && this.config == config && !verified && !protectionVerified && trace == []
    {
      this.config := config;
      verified, protectionVerified, states, trace := false, false, [blank, blank], [];
      pending, pendingWheel, pendingRid, pendingSince, now := false, 0, 0, 0, 0;
      reply := Frame(0, 0, [0, 0, 0, 0, 0, 0, 0, 0], 0);
    }

    // ----- The receiver -----

    /** Does this frame answer the read that is waiting: in time, from its wheel and for its register? */
    predicate Settles(f: CanFrame)
      requires pendingWheel < 2 && |config.motors| == 2
      reads this`pendingWheel, this`pendingRid, this`pendingSince
    {
      && IsRegisterFrame(f) && pendingSince <= f.receivedAt <= pendingSince + config.replyTimeout
      && DecodeRegister(f, config.motors[pendingWheel].address, pendingRid).Success?
    }

    /** Register replies are told apart first; everything else is decoded for the wheel it names. */
    method Route(f: CanFrame)
      requires |states| == 2 && pendingWheel < 2 && config.Valid()
      modifies this`states, this`pending, this`reply
      ensures |states| == 2
      ensures !pending <==> !old(pending) || Settles(f)
      ensures reply == if old(pending) && !pending then f else old(reply)
      ensures forall i | 0 <= i < 2 ::
        var decoded := DecodeFeedback(f, config.motors[i].address, config.motors[i].mapping, 0);
        states[i] == if !IsRegisterFrame(f) && decoded.Success? && old(states)[i].receivedAt < f.receivedAt
                     then decoded.value.(sequence := old(states)[i].sequence + 1) else old(states)[i]
    {
      hide Unmap;
      hide DecodeRegister;
      if IsRegisterFrame(f) {
        if pending && pendingSince <= f.receivedAt <= pendingSince + config.replyTimeout
           && DecodeRegister(f, config.motors[pendingWheel].address, pendingRid).Success?
        {
          reply, pending := f, false;
        }
        return;
      }
      for i := 0 to 2
        invariant |states| == 2 && pending == old(pending) && reply == old(reply)
        invariant forall k | i <= k < 2 :: states[k] == old(states)[k]
        invariant forall k | 0 <= k < i ::
          var decoded := DecodeFeedback(f, config.motors[k].address, config.motors[k].mapping, 0);
          states[k] == if decoded.Success? && old(states)[k].receivedAt < f.receivedAt
                       then decoded.value.(sequence := old(states)[k].sequence + 1) else old(states)[k]
      {
        if f.id == config.motors[i].address.mst {
          var decoded := DecodeFeedback(f, config.motors[i].address, config.motors[i].mapping, 0);
          if decoded.Success? && f.receivedAt > states[i].receivedAt {
            states := states[i := decoded.value.(sequence := states[i].sequence + 1)];
          }
        }
      }
    }

    method Interfere(wait: nat)
      requires Valid()
      modifies this`states, this`pending, this`reply, this`now
      ensures Valid() && old(now) + wait <= now
      ensures config.Valid() && (old(pending) && !pending ==> Settles(reply))
      ensures !old(pending) ==> !pending
    {
      SoundFits(config, verified, protectionVerified, trace);
      hide Sound;
      hide Safe;
      hide Identified;
      hide Protected;
      hide DecodeRegister;
      hide DecodeFeedback;
      hide IsRegisterFrame;
      now := now + wait;
      var steps: nat :| true;
      for step := 0 to steps
        invariant Valid() && old(now) + wait <= now
        invariant old(pending) && !pending ==> Settles(reply)
        invariant !old(pending) ==> !pending
      {
        var pause: nat :| true;
        now := now + pause;
        var f: CanFrame := *;
        Route(f);
      }
    }

    // ----- Sending -----

    /** Hands a frame to the transport, which may refuse it. */
    method Transmit(f: CanFrame) returns (code: Code)
      requires Valid() && config.Valid() && MaySend(config, f, verified, protectionVerified, trace)
      modifies this`trace
      ensures Valid() && trace == old(trace) + [Sent(f, verified, protectionVerified)]
    {
      hide MaySend;
      SendingKeepsSound(config, verified, protectionVerified, trace, f);
      hide Sound;
      trace := trace + [Sent(f, verified, protectionVerified)];
      code := *;
    }

    method ReadRegister(wheel: nat, rid: Byte) returns (r: Result<RegisterValue>)
      requires Valid()
      modifies this
      ensures Valid() && verified == old(verified) && protectionVerified == old(protectionVerified)
        && Extends(old(trace), trace) && old(now) <= now
      ensures r.Success? ==> wheel < 2 && trace != [] && trace[|trace| - 1] == Learned(wheel, rid, r.value)
      ensures r.Failure? ==> r.code != Ok
      ensures config.Valid() && ReadIn(config, old(trace), trace, wheel, rid)
    {
      SoundFits(config, verified, protectionVerified, trace);
      hide Sound;
      hide DecodeRegister;
      hide ReadIn;
      NothingRead(config, trace, wheel, rid);
      if wheel >= 2 {
        return Failure(InvalidCommand);
      }
      var request := EncodeWheelRead(config.motors[wheel].address.esc, rid);
      if request.Failure? {
        return Failure(request.code);
      }
      ReadFrameIsRead(config.motors[wheel].address.esc, rid);
      ghost var before := trace;
      hide EncodeWheelRead;
      hide IsRead;
      hide IsEnable;
      hide IsDrive;
      hide IsProtectionWrite;
      r := Exchange(wheel, rid, request.value);
      OneRead(config, before, trace, wheel, rid, request.value);
    }

    /** Sends a read and waits for its reply. */
    method Exchange(wheel: nat, rid: Byte, request: CanFrame) returns (r: Result<RegisterValue>)
      requires Valid() && config.Valid() && wheel < 2
        && MaySend(config, request, verified, protectionVerified, trace)
      modifies this
      ensures Valid() && verified == old(verified) && protectionVerified == old(protectionVerified) && old(now) <= now
      ensures Extends(old(trace), trace)
      ensures r.Success? ==> trace != [] && trace[|trace| - 1] == Learned(wheel, rid, r.value)
      ensures r.Failure? ==> r.code != Ok
      ensures trace == old(trace) + [Sent(request, verified, protectionVerified)]
        + if r.Success? then [Learned(wheel, rid, r.value)] else []
      ensures r.Success? ==>
        && old(now) <= reply.receivedAt <= old(now) + config.replyTimeout
        && DecodeRegister(reply, config.motors[wheel].address, rid) == r
    {
      hide Sound;
      hide DecodeRegister;
      hide MaySend;
      pending, pendingWheel, pendingRid, pendingSince := true, wheel, rid, now;
      var sent := Transmit(request);
      if sent != Ok {
        pending := false;
        return Failure(sent);
      }
      var answered := AwaitReply();
      if !answered {
        pending := false;
        return Failure(Timeout);
      }
      r := DecodeRegister(reply, config.motors[wheel].address, rid);
      DecodedKind(reply, config.motors[wheel].address, rid);
      Learn(wheel, rid, r.value);
    }

    /** Waits for the receiver to take the reply, at most for the reply timeout. */
    method AwaitReply() returns (answered: bool)
      requires Valid() && pending && config.Valid()
      modifies this`states, this`pending, this`reply, this`now
      ensures Valid() && old(now) <= now && (answered <==> !pending)
      ensures answered ==> Settles(reply)
    {
      hide Sound;
      hide DecodeRegister;
      var deadline := pendingSince + config.replyTimeout;
      while pending && now < deadline
        invariant Valid() && old(now) <= now
        invariant !pending ==> Settles(reply)
        decreases deadline - now
      {
        Interfere(1);
      }
      answered := !pending;
    }

    ghost method Learn(wheel: nat, rid: Byte, value: RegisterValue)
      requires Valid() && WheelRegister(rid) == Some(value.Word?)
      modifies this`trace
      ensures Valid() && trace == old(trace) + [Learned(wheel, rid, value)]
    {
      var e := Learned(wheel, rid, value);
      AppendKeepsSound(config, verified, protectionVerified, trace, e);
      trace := trace + [e];
    }

    // ----- Pair commands -----

    /** What every operation keeps: the trace only grows, the flags stay. */
    twostate predicate Kept()
      reads this
    {
      verified == old(verified) && protectionVerified == old(protectionVerified) && Extends(old(trace), trace)
        && old(now) <= now
    }

    method SendZero(ghost command: Management) returns (failure: Code)
      requires Valid() && verified
      modifies this`trace
      ensures Valid() && Kept()
      ensures config.Valid() && OnlySends(config, trace, |old(trace)|, command, true)
      ensures |trace| == |old(trace)| + 2
      ensures IsZeroSpeedTo(config, trace[|old(trace)|], 0) && IsZeroSpeedTo(config, trace[|old(trace)| + 1], 1)
    {
      SoundFits(config, verified, protectionVerified, trace);
      hide Sound;
      hide OnlySends;
      hide IsZeroSpeed;
      ghost var start := trace;
      NothingSent(config, trace, command, true);
      failure := Ok;
      for i := 0 to 2
        invariant Valid() && Kept() && OnlySends(config, trace, |start|, command, true) && |trace| == |start| + i
        invariant i > 0 ==> IsZeroSpeedTo(config, trace[|start|], 0)
        invariant i > 1 ==> IsZeroSpeedTo(config, trace[|start| + 1], 1)
      {
        ghost var before := trace;
        ZeroIsEncoded(config.motors[i].address.esc);
        var zero := EncodeVelocity(config.motors[i].address.esc, Finite(0.0));
        VelocityFrameKind(config.motors[i].address.esc, Finite(0.0));
        hide EncodeVelocity;
        hide IsDrive;
        hide IsRead;
        hide IsEnable;
        hide IsProtectionWrite;
        var sent := Transmit(zero.value);
        OneMoreCommand(config, before, trace[|before|], i, command, true);
        OnlyOnward(config, before, trace, |start|, command, true);
        failure := if sent != Ok then sent else failure;
      }
    }

    /** One management frame to wheel `i`. */
    method SendCommand(i: nat, command: Management) returns (code: Code)
      requires Valid() && i < 2 && verified && (command == Enable ==> protectionVerified)
      modifies this`trace
      ensures Valid() && Kept() && config.Valid()
      ensures |trace| == |old(trace)| + 1 && trace[|old(trace)|].Sent?
        && IsManagement(trace[|old(trace)|].frame, config.motors[i].address.esc, Velocity, command)
      ensures OnlySends(config, trace, |old(trace)|, command, false)
        && OnlySends(config, trace, |old(trace)|, command, true)
      ensures SentTo(config, trace, |old(trace)|, i, command)
    {
      SoundFits(config, verified, protectionVerified, trace);
      ManagementFrameKind(config.motors[i].address.esc, command);
      hide OnlySends;
      hide SentTo;
      hide IsManagement;
      ghost var before := trace;
      code := Transmit(EncodeManagement(config.motors[i].address.esc, Velocity, command).value);
      hide EncodeManagement;
      OneMoreCommand(config, before, trace[|before|], i, command, false);
      OneMoreCommand(config, before, trace[|before|], i, command, true);
    }

    /**
     Commands both wheels and waits until both report the expected state in frames received after the
     command began; success is recorded with the reports that prove it.
     */
    method SpecialPair(command: Management, expected: nat) returns (code: Code)
      requires Valid() && (command == Enable ==> protectionVerified)
      modifies this
      ensures Valid() && Kept()
      ensures code == Ok ==> verified && trace != [] && trace[|trace| - 1].Confirmed?
      ensures code == Ok ==> trace[|trace| - 1].status == expected && old(now) <= trace[|trace| - 1].since
      ensures config.Valid() && OnlySends(config, trace, |old(trace)|, command, command == Enable)
      ensures code == Ok ==> SentToBoth(config, trace, |old(trace)|, command)
    {
      SoundFits(config, verified, protectionVerified, trace);
      hide Sound;
      hide MaySend;
      hide OnlySends;
      hide SentTo;
      ghost var began, zero := trace, command == Enable;
      NothingSent(config, trace, command, zero);
      if !verified {
        return InvalidConfiguration;
      }
      if command == Enable {
        code := SendZero(command);
        if code != Ok {
          return;
        }
      }
      var start := now;
      code := CommandPair(command, began);
      if code != Ok {
        return;
      }
      ghost var commanded := trace;
      code := AwaitStates(command, expected, start);
      OnlyOnward(config, commanded, trace, |began|, command, zero);
      SentStays(config, commanded, trace, |began|, |began|, 0, command);
      SentStays(config, commanded, trace, |began|, |began|, 1, command);
    }

    /** Tells both wheels before waiting for either; a refused frame is reported, but does not keep the other back. */
    method CommandPair(command: Management, ghost began: seq<Event>) returns (code: Code)
      requires Valid() && verified && (command == Enable ==> protectionVerified) && Extends(began, trace)
      requires config.Valid() && OnlySends(config, trace, |began|, command, command == Enable)
      modifies this`trace
      ensures Valid() && Kept() && Extends(began, trace)
      ensures OnlySends(config, trace, |began|, command, command == Enable)
      ensures SentToBoth(config, trace, |began|, command)
    {
      hide Sound;
      hide OnlySends;
      hide SentTo;
      code := Ok;
      for i := 0 to 2
        invariant Valid() && Kept() && Extends(began, trace)
        invariant OnlySends(config, trace, |began|, command, command == Enable)
        invariant forall j | 0 <= j < i :: SentTo(config, trace, |began|, j, command)
      {
        ghost var before := trace;
        var sent := SendCommand(i, command);
        OnlyOnward(config, before, trace, |began|, command, command == Enable);
        SentStays(config, trace, trace, |began|, |before|, i, command);
        if i > 0 { SentStays(config, before, trace, |began|, |began|, 0, command); }
        code := if sent != Ok then sent else code;
      }
    }

    method AwaitStates(command: Management, expected: nat, start: int) returns (code: Code)
      requires Valid() && verified && (command == Enable ==> protectionVerified)
      modifies this
      ensures Valid() && Kept()
      ensures code == Ok ==> trace != [] && trace[|trace| - 1].Confirmed?
      ensures code == Ok ==> trace[|trace| - 1].status == expected && trace[|trace| - 1].since == start
      ensures config.Valid() && OnlySends(config, trace, |old(trace)|, command, command == Enable)
    {
      SoundFits(config, verified, protectionVerified, trace);
      hide Sound;
      hide MaySend;
      hide OnlySends;
      ghost var began, zero := trace, command == Enable;
      NothingSent(config, trace, command, zero);
      var refresh := start;
      while now < start + config.replyTimeout
        invariant Valid() && Kept() && OnlySends(config, trace, |began|, command, zero)
        decreases start + config.replyTimeout - now
      {
        if states[0].valid && states[0].receivedAt >= start && states[0].status == expected
           && states[1].valid && states[1].receivedAt >= start && states[1].status == expected
        {
          QuietEvent(config, trace, Confirmed(expected, start, states), |began|, command, zero);
          Confirm(expected, start);
          return Ok;
        }
        if command == Disable && now - refresh >= 20 * Millisecond {
          code := Repeat(expected, start, began);
          if code != Ok {
            return;
          }
          refresh := now;
        }
        if command == Enable && now - refresh >= 10 * Millisecond {
          ghost var before := trace;
          code := SendZero(command);
          OnlyOnward(config, before, trace, |began|, command, true);
          if code != Ok {
            return;
          }
          refresh := now;
        }
        Interfere(1);
      }
      return Timeout;
    }

    /** Disables again the wheels that have not reported the expected state yet. */
    method Repeat(expected: nat, start: int, ghost began: seq<Event>) returns (code: Code)
      requires Valid() && verified && config.Valid() && Extends(began, trace)
      requires OnlySends(config, trace, |began|, Disable, false)
      modifies this`trace
      ensures Valid() && Kept() && Extends(began, trace) && OnlySends(config, trace, |began|, Disable, false)
    {
      hide Sound;
      hide OnlySends;
      for i := 0 to 2
        invariant Valid() && Kept() && Extends(began, trace) && OnlySends(config, trace, |began|, Disable, false)
      {
        if !(states[i].valid && states[i].receivedAt >= start && states[i].status == expected) {
          ghost var before := trace;
          code := SendCommand(i, Disable);
          OnlyOnward(config, before, trace, |began|, Disable, false);
          if code != Ok {
            return;
          }
        }
      }
      code := Ok;
    }

    ghost method Confirm(expected: nat, start: int)
      requires Valid()
      requires forall i | 0 <= i < 2 :: states[i].valid && start <= states[i].receivedAt && states[i].status == expected
      modifies this`trace
      ensures Valid() && trace == old(trace) + [Confirmed(expected, start, states)]
    {
      var e := Confirmed(expected, start, states);
      AppendKeepsSound(config, verified, protectionVerified, trace, e);
      trace := trace + [e];
    }

    method EnablePair() returns (code: Code)
      requires Valid()
      modifies this
      ensures Valid() && Kept()
      ensures code == Ok ==>
        verified && protectionVerified && trace != [] && trace[|trace| - 1].Confirmed?
        && trace[|trace| - 1].status == 1
      ensures config.Valid() && OnlySends(config, trace, |old(trace)|, Enable, true)
      ensures code == Ok ==> SentToBoth(config, trace, |old(trace)|, Enable)
      ensures !old(protectionVerified) ==> code == InvalidConfiguration && trace == old(trace)
    {
      SoundFits(config, verified, protectionVerified, trace);
      if !protectionVerified {
        return InvalidConfiguration;
      }
      code := SpecialPair(Enable, 1);
    }

    method DisablePair() returns (code: Code)
      requires Valid()
      modifies this
      ensures Valid() && Kept()
      ensures code == Ok ==> verified && trace != [] && trace[|trace| - 1].Confirmed? && trace[|trace| - 1].status == 0
      ensures config.Valid() && OnlySends(config, trace, |old(trace)|, Disable, false)
      ensures code == Ok ==> SentToBoth(config, trace, |old(trace)|, Disable)
    {
      code := SpecialPair(Disable, 0);
    }

    /** Refreshes the disabled state of both wheels, without waiting for a confirmation. */
    method PollDisabledPair() returns (code: Code)
      requires Valid()
      modifies this
      ensures Valid() && Kept() && (!verified ==> code == InvalidConfiguration && trace == old(trace))
      ensures config.Valid() && OnlySends(config, trace, |old(trace)|, Disable, false)
      ensures verified ==> SentToBoth(config, trace, |old(trace)|, Disable)
    {
      SoundFits(config, verified, protectionVerified, trace);
      hide Sound;
      hide OnlySends;
      hide SentTo;
      NothingSent(config, trace, Disable, false);
      if !verified {
        return InvalidConfiguration;
      }
      code := CommandPair(Disable, trace);
    }

    method ClearPair() returns (code: Code)
      requires Valid()
      modifies this
      ensures Valid() && Kept()
      ensures code == Ok ==> verified && trace != [] && trace[|trace| - 1].Confirmed? && trace[|trace| - 1].status == 0
      ensures config.Valid() && (!verified ==> code == InvalidConfiguration && trace == old(trace))
      ensures code == Ok ==>
        && |trace| > |old(trace)| + 2
        && IsCommandTo(config, trace[|old(trace)|], 0, ClearError)
        && IsCommandTo(config, trace[|old(trace)| + 1], 1, ClearError)
        && OnlySends(config, trace, |old(trace)| + 2, Disable, false)
        && SentToBoth(config, trace, |old(trace)| + 2, Disable)
    {
      SoundFits(config, verified, protectionVerified, trace);
      hide Sound;
      hide OnlySends;
      hide SentToBoth;
      hide IsManagement;
      ghost var began := trace;
      if !verified {
        return InvalidConfiguration;
      }
      for i := 0 to 2
        invariant Valid() && Kept() && began <= trace && |trace| == |began| + i
        invariant i > 0 ==> IsCommandTo(config, trace[|began|], 0, ClearError)
        invariant i > 1 ==> IsCommandTo(config, trace[|began| + 1], 1, ClearError)
      {
        code := SendCommand(i, ClearError);
        if code != Ok {
          return;
        }
      }
      Interfere(10 * Millisecond);
      code := DisablePair();
    }

    method StopPair() returns (code: Code)
      requires Valid()
      modifies this
      ensures Valid() && Kept()
      ensures code == Ok ==> verified && trace != [] && trace[|trace| - 1].Confirmed? && trace[|trace| - 1].status == 0
      ensures config.Valid() && OnlySends(config, trace, |old(trace)|, Disable, true)
      ensures code == Ok ==>
        && |trace| > |old(trace)| + 2
        && IsZeroSpeedTo(config, trace[|old(trace)|], 0) && IsZeroSpeedTo(config, trace[|old(trace)| + 1], 1)
        && SentToBoth(config, trace, |old(trace)| + 2, Disable)
    {
      SoundFits(config, verified, protectionVerified, trace);
      hide Sound;
      hide OnlySends;
      hide SentTo;
      hide IsZeroSpeedTo;
      ghost var began := trace;
      NothingSent(config, trace, Disable, true);
      if !verified {
        return InvalidConfiguration;
      }
      code := SendZero(Disable);
      ghost var zeroed := trace;
      code := DisablePair();
      DisablesAreCommands(config, trace, |zeroed|);
      OnlyOnward(config, zeroed, trace, |began|, Disable, true);
    }

    /** Drives both wheels, if both are enabled and fresh and both speeds allowed; a half-sent pair is stopped. */
    method SendVelocityPair(speeds: seq<Double>) returns (code: Code)
      requires Valid() && |speeds| == 2
      modifies this
      ensures Valid() && Kept()
      ensures code in {InvalidConfiguration, InvalidCommand, StaleFeedback} ==> trace == old(trace)
      ensures code == Ok ==> verified && old(MayDrive(config, Cleared(speeds, now, states)))
      ensures code == Ok ==> |config.motors| == 2 && forall i | 0 <= i < 2 ::
        && speeds[i].Finite? && Abs(speeds[i].value) <= config.motors[i].maximumSpeed
        && old(states)[i].valid && old(states)[i].status == 1
        && old(now) - old(states)[i].receivedAt <= config.feedbackTimeout
      ensures code == Ok ==> forall i | 0 <= i < 2 :: SpeedFrame(i, speeds[i]).Success?
      ensures code == Ok ==> trace == old(trace) + [Cleared(speeds, old(now), old(states)),
                                                    Sent(SpeedFrame(0, speeds[0]).value, verified, protectionVerified),
                                                    Sent(SpeedFrame(1, speeds[1]).value, verified, protectionVerified)]
    {
      hide Sound;
      hide MayDrive;
      hide EncodeVelocity;
      SoundFits(config, verified, protectionVerified, trace);
      code := CheckSpeeds(speeds);
      if code != Ok {
        return;
      }
      DriveIsChecked(config, speeds, now, states);
      Clear(speeds);
      code := DrivePair(speeds);
      if code != Ok {
        var stopped := StopPair();
        return PartialFailure;
      }
    }

    function SpeedFrame(i: nat, speed: Double): Result<CanFrame>
      requires config.Valid() && i < 2
    {
      EncodeVelocity(config.motors[i].address.esc, speed)
    }

    method CheckSpeeds(speeds: seq<Double>) returns (code: Code)
      requires Valid() && |speeds| == 2
      ensures code in {Ok, InvalidConfiguration, InvalidCommand, StaleFeedback}
      ensures code == Ok <==> verified && MayDrive(config, Cleared(speeds, now, states))
    {
      SoundFits(config, verified, protectionVerified, trace);
      hide Sound;
      if !verified {
        return InvalidConfiguration;
      }
      for i := 0 to 2
        invariant forall k | 0 <= k < i ::
          speeds[k].Finite? && Abs(speeds[k].value) <= config.motors[k].maximumSpeed && Fresh(config, k, states[k], now)
      {
        if !speeds[i].Finite? || Abs(speeds[i].value) > config.motors[i].maximumSpeed {
          return InvalidCommand;
        }
        if !states[i].valid || states[i].status != 1 || now - states[i].receivedAt > config.feedbackTimeout {
          return StaleFeedback;
        }
      }
      return Ok;
    }

    method DrivePair(speeds: seq<Double>) returns (code: Code)
      requires Valid() && config.Valid() && |speeds| == 2 && verified && trace != [] && trace[|trace| - 1].Cleared?
      modifies this`trace
      ensures Valid() && Extends(old(trace), trace)
      ensures code == Ok ==> SpeedFrame(0, speeds[0]).Success? && SpeedFrame(1, speeds[1]).Success?
      ensures code == Ok ==> trace == old(trace) + [Sent(SpeedFrame(0, speeds[0]).value, verified, protectionVerified),
                                                    Sent(SpeedFrame(1, speeds[1]).value, verified, protectionVerified)]
    {
      hide Sound;
      hide EncodeVelocity;
      var first, second := SpeedFrame(0, speeds[0]), SpeedFrame(1, speeds[1]);
      if first.Failure? {
        return InvalidCommand;
      }
      code := Drive(0, first.value, speeds[0]);
      if code == Ok && second.Failure? {
        return InvalidCommand;
      }
      if code == Ok {
        code := Drive(1, second.value, speeds[1]);
      }
    }

    ghost method Clear(speeds: seq<Double>)
      requires Valid() && config.Valid() && MayDrive(config, Cleared(speeds, now, states))
      modifies this`trace
      ensures Valid() && trace == old(trace) + [Cleared(speeds, now, states)]
    {
      var e := Cleared(speeds, now, states);
      AppendKeepsSound(config, verified, protectionVerified, trace, e);
      trace := trace + [e];
    }

    /** A velocity frame, right after the check that allows it or after the other wheel's frame. */
    method Drive(i: nat, f: CanFrame, speed: Double) returns (code: Code)
      requires Valid() && i < 2 && config.Valid() && verified
        && EncodeVelocity(config.motors[i].address.esc, speed) == Success(f)
      requires i < |trace| && trace[|trace| - 1 - i].Cleared? && (i == 1 ==> trace[|trace| - 1].Sent?)
      modifies this`trace
      ensures Valid() && trace == old(trace) + [Sent(f, verified, protectionVerified)]
    {
      hide Sound;
      hide EncodeVelocity;
      hide IsDrive;
      hide IsRead;
      hide IsEnable;
      hide IsProtectionWrite;
      VelocityFrameKind(config.motors[i].address.esc, speed);
      code := Transmit(f);
    }

    // ----- Verification -----

    /**
     Nothing is trusted until every identity register of both wheels has been read back as configured; then the
     wheels are disabled, the supply and temperatures checked, and both protections read, and written if asked for.
     */
    method VerifyConfiguration() returns (code: Code)
      requires Valid()
      modifies this
      ensures Valid() && old(trace) + [Restarted] <= trace && NoRestart(trace, |old(trace)| + 1)
      ensures code == Ok ==> verified && protectionVerified
      ensures code != Ok ==> !protectionVerified
      ensures config.Valid() && (code == Ok ==> Established(config, trace, 0) && Established(config, trace, 1))
      ensures code == Ok ==> Started(config, trace, 0) && Started(config, trace, 1)
      ensures code == Ok ==> trace[|trace| - 1].Confirmed? && trace[|trace| - 1].status == 0
    {
      hide Sound;
      hide Identified;
      hide Protected;
      hide Started;
      hide Established;
      BeginVerification();
      code := VerifyIdentity();
      if code != Ok {
        return;
      }
      TrustIdentity();
      code := VerifyDisabled();
      if code != Ok {
        return;
      }
      TrustProtection();
    }

    /** Nothing that was established before counts any more. */
    method BeginVerification()
      requires Valid()
      modifies this`verified, this`protectionVerified, this`trace
      ensures Valid() && config.Valid() && !verified && !protectionVerified && trace == old(trace) + [Restarted]
    {
      SoundFits(config, verified, protectionVerified, trace);
      hide Sound;
      FlagsKeepSound(config, verified, protectionVerified, trace);
      verified, protectionVerified := false, false;
      Restart();
    }

    method TrustIdentity()
      requires Valid() && !protectionVerified && config.Valid() && Identified(config, trace)
      modifies this`verified
      ensures Valid() && verified
    {
      hide Sound;
      FlagsKeepSound(config, verified, protectionVerified, trace);
      verified := true;
    }

    method TrustProtection()
      requires Valid() && verified && config.Valid() && Protected(config, trace)
      modifies this`protectionVerified
      ensures Valid() && protectionVerified && Established(config, trace, 0) && Established(config, trace, 1)
    {
      hide Sound;
      hide Established;
      FlagsKeepSound(config, verified, protectionVerified, trace);
      protectionVerified := true;
      EstablishedNow(config, trace);
    }

    /** What follows once the identity is known: disabling, the start checks, both protections, and disabling again. */
    method VerifyDisabled() returns (code: Code)
      requires Valid() && verified
      modifies this
      ensures Valid() && Kept() && config.Valid()
      ensures code == Ok ==> Protected(config, trace) && Started(config, trace, 0) && Started(config, trace, 1)
      ensures code == Ok ==> trace != [] && trace[|trace| - 1].Confirmed? && trace[|trace| - 1].status == 0
    {
      SoundFits(config, verified, protectionVerified, trace);
      hide Sound;
      hide Started;
      hide Protected;
      hide OnlySends;
      hide SentTo;
      code := DisablePair();
      if code != Ok {
        return;
      }
      code := CheckStartup();
      if code != Ok {
        return;
      }
      ghost var started := trace;
      code := VerifyProtection();
      if code != Ok {
        return;
      }
      ghost var proved := trace;
      code := DisablePair();
      if code != Ok {
        return;
      }
      ProtectedStays(config, proved, trace);
      StartedStays(config, started, trace, 0);
      StartedStays(config, started, trace, 1);
    }

    /** Readings of an earlier verification do not count any more. */
    ghost method Restart()
      requires Valid() && !verified && !protectionVerified
      modifies this`trace
      ensures Valid() && trace == old(trace) + [Restarted]
    {
      AppendKeepsSound(config, verified, protectionVerified, trace, Restarted);
      trace := trace + [Restarted];
    }

    method VerifyIdentity() returns (code: Code)
      requires Valid()
      modifies this
      ensures Valid() && Kept() && config.Valid()
      ensures code == Ok ==> Identified(config, trace)
    {
      SoundFits(config, verified, protectionVerified, trace);
      hide Sound;
      hide Proven;
      for i := 0 to 2
        invariant Valid() && Kept()
        invariant forall j, k | 0 <= j < i && 0 <= k < |config.Identity(j)| ::
          Proven(config, trace, j, config.Identity(j)[k], true)
      {
        var expected := config.Identity(i);
        for n := 0 to |expected|
          invariant Valid() && Kept()
          invariant forall j, k | 0 <= j < i && 0 <= k < |config.Identity(j)| ::
            Proven(config, trace, j, config.Identity(j)[k], true)
          invariant forall k | 0 <= k < n :: Proven(config, trace, i, expected[k], true)
        {
          ghost var before := trace;
          var r := ReadRegister(i, expected[n].0);
          ReadsStay(config, before, trace);
          if r.Failure? {
            return r.code;
          }
          if !config.Matches(r.value, expected[n].1) {
            return InvalidConfiguration;
          }
          LearnedIsRead(config, trace, i, expected[n], true);
        }
      }
      return Ok;
    }

    method CheckStartup() returns (code: Code)
      requires Valid()
      modifies this
      ensures Valid() && Kept()
      ensures code == Ok ==> Started(config, trace, 0) && Started(config, trace, 1)
    {
      hide Sound;
      hide Started;
      for i := 0 to 2
        invariant Valid() && Kept()
        invariant (i > 0 ==> Started(config, trace, 0)) && (i > 1 ==> Started(config, trace, 1))
      {
        ghost var before := trace;
        code := CheckWheel(i);
        StartedStays(config, before, trace, 0);
        if code != Ok {
          return;
        }
      }
      return Ok;
    }

    /** Supply voltage and the two temperatures of one wheel. */
    method CheckWheel(i: nat) returns (code: Code)
      requires Valid() && i < 2
      modifies this
      ensures Valid() && Kept()
      ensures code == Ok ==> Started(config, trace, i)
    {
      hide Sound;
      hide ReadWithin;
      hide ReadIn;
      var registers: seq<Byte> := [0x3C, 0x3D, 0x3E];
      for n := 0 to 3
        invariant Valid() && Kept()
        invariant n > 0 ==> ReadWithin(trace, i, 0x3C, config.minVoltage, config.maxVoltage)
        invariant n > 1 ==> ReadWithin(trace, i, 0x3D, 0.0, config.maxTemperature)
        invariant n > 2 ==> ReadWithin(trace, i, 0x3E, 0.0, config.maxTemperature)
      {
        ghost var before := trace;
        var r := ReadRegister(i, registers[n]);
        WithinStays(before, trace, i, 0x3C, config.minVoltage, config.maxVoltage);
        WithinStays(before, trace, i, 0x3D, 0.0, config.maxTemperature);
        if r.Failure? {
          return r.code;
        }
        var v := NumberOf(r.value);
        if (n == 0 && (v < config.minVoltage || v > config.maxVoltage))
           || (n > 0 && (v < 0.0 || v > config.maxTemperature)) {
          return InvalidConfiguration;
        }
        if n == 0 {
          LearnedIsWithin(trace, i, 0x3C, config.minVoltage, config.maxVoltage);
        } else {
          LearnedIsWithin(trace, i, registers[n], 0.0, config.maxTemperature);
        }
      }
      return Ok;
    }

    method VerifyProtection() returns (code: Code)
      requires Valid() && verified
      modifies this
      ensures Valid() && Kept() && config.Valid()
      ensures code == Ok ==> Protected(config, trace)
    {
      SoundFits(config, verified, protectionVerified, trace);
      hide Sound;
      hide Proven;
      for i := 0 to 2
        invariant Valid() && Kept()
        invariant forall j, k | 0 <= j < i && 0 <= k < |config.Protection(j)| ::
          Proven(config, trace, j, config.Protection(j)[k], false)
      {
        var expected := config.Protection(i);
        for n := 0 to |expected|
          invariant Valid() && Kept()
          invariant forall j, k | 0 <= j < i && 0 <= k < |config.Protection(j)| ::
            Proven(config, trace, j, config.Protection(j)[k], false)
          invariant forall k | 0 <= k < n :: Proven(config, trace, i, expected[k], false)
        {
          ghost var before := trace;
          code := VerifyOne(i, expected[n]);
          ReadsStay(config, before, trace);
          if code != Ok {
            return;
          }
        }
      }
      return Ok;
    }

    /**
     Reads one protection, writes it right after a fresh disable confirmation if that is asked for, and reads it
     back.
     */
    method VerifyOne(i: nat, item: (Byte, real)) returns (code: Code)
      requires Valid() && verified && config.Valid() && i < 2
        && (item == config.Protection(i)[0] || item == config.Protection(i)[1])
      modifies this
      ensures Valid() && Kept()
      ensures code == Ok ==> Proven(config, trace, i, item, false)
    {
      hide Sound;
      hide Proven;
      hide ReadIn;
      hide OnlySends;
      hide SentTo;
      var r := ReadRegister(i, item.0);
      if r.Failure? {
        return r.code;
      }
      if config.writeProtection && Abs(NumberOf(r.value) - item.1) > config.Slack(item.1) {
        code := DisablePair();
        if code != Ok {
          return;
        }
        code := WriteProtection(i, item);
        if code != Ok {
          return;
        }
        r := ReadRegister(i, item.0);
        if r.Failure? {
          return r.code;
        }
      }
      if Abs(NumberOf(r.value) - item.1) > config.Slack(item.1) {
        return InvalidConfiguration;
      }
      LearnedIsRead(config, trace, i, item, false);
      return Ok;
    }

    method WriteProtection(i: nat, item: (Byte, real)) returns (code: Code)
      requires Valid() && verified && config.Valid() && i < 2 && config.writeProtection
        && (item == config.Protection(i)[0] || item == config.Protection(i)[1])
      requires trace != [] && trace[|trace| - 1].Confirmed? && trace[|trace| - 1].status == 0
      modifies this`trace
      ensures Valid() && Kept()
    {
      hide Sound;
      var write := EncodeProtectionWrite(config.motors[i].address.esc, item.0, Finite(item.1));
      if write.Failure? {
        return InvalidCommand;
      }
      WriteFrameKind(config.motors[i].address.esc, item.0, Finite(item.1));
      ProtectionIsConfigured(config, i, item, write.value);
      hide WritesProtection;
      hide EncodeProtectionWrite;
      hide IsProtectionWrite;
      hide IsRead;
      hide IsEnable;
      hide IsDrive;
      code := Transmit(write.value);
    }
  }

  lemma DriveIsChecked(c: Config, speeds: seq<Double>, now: int, states: seq<MotorState>)
    requires c.Valid() && MayDrive(c, Cleared(speeds, now, states))
    ensures |speeds| == |states| == 2 && forall i | 0 <= i < 2 ::
      && speeds[i].Finite? && Abs(speeds[i].value) <= c.motors[i].maximumSpeed
      && states[i].valid && states[i].status == 1 && now - states[i].receivedAt <= c.feedbackTimeout
  {
  }

  lemma DecodedKind(f: CanFrame, a: Address, rid: Byte)
    requires DecodeRegister(f, a, rid).Success?
    ensures WheelRegister(rid) == Some(DecodeRegister(f, a, rid).value.Word?)
  {
  }

  lemma LearnedIsRead(c: Config, trace: seq<Event>, wheel: nat, item: (Byte, real), exact: bool)
    requires trace != [] && IsReading(c, trace[|trace| - 1], wheel, item, exact)
    ensures Proven(c, trace, wheel, item, exact)
  {
    assert NoRestart(trace, |trace| - 1);
  }

  lemma ReadsStay(c: Config, a: seq<Event>, b: seq<Event>)
    requires Extends(a, b)
    ensures forall wheel: nat, item: (Byte, real), exact: bool | Proven(c, a, wheel, item, exact) ::
      Proven(c, b, wheel, item, exact)
  {
  }

  lemma ProtectedStays(c: Config, a: seq<Event>, b: seq<Event>)
    requires c.Valid() && Protected(c, a) && Extends(a, b)
    ensures Protected(c, b)
  {
  }
}
