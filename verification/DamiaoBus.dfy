/**
 The position-mode bus. Management operations exclude one another; between any two of their
 sections the receiver may act, which `Interfere` stands for. `Valid` therefore holds in every
 state that any thread can observe.
 */
module DamiaoBus {
  import opened Numbers
  import opened Binary32
  import opened Can
  import opened Protocol
  import opened BusState
  import opened BusSteps

  /** What a management operation may do to the bus besides its own effect. */
  predicate Steady(a: Bus, b: Bus) {
    && b.honest == a.honest && b.tables == a.tables && |b.motors| == |a.motors|
    && (b.link.mode == a.link.mode || b.link.mode == Fault) && a.link.now <= b.link.now
    && b.link.passive == a.link.passive && b.link.closing == a.link.closing
    && b.link.feedbackTimeout == a.link.feedbackTimeout && b.link.quietPeriod == a.link.quietPeriod
  }

  /** The devices differ at most in one register of one motor. */
  predicate DeviceKept(a: World, b: World, index: nat, rid: Byte) {
    && |b.device| == |a.device|
    && (forall j | 0 <= j < |a.device| && j != index :: b.device[j] == a.device[j])
    && (index < |a.device| ==> forall r: Byte | r != rid :: Content(b.device[index], r) == Content(a.device[index], r))
  }

  /** What waiting, and entering a transaction, leave behind. */
  predicate Quiet(a: Bus, b: Bus) {
    && Steady(a, b) && b.motors == a.motors && SlotsMoved(a.slots, b.slots)
    && b.world.device == a.world.device && b.world.wire == a.world.wire
  }

  /** What a transaction leaves behind. */
  predicate Transacted(a: Bus, b: Bus, request: CanFrame, index: nat, operation: Byte, rid: Byte, sent: bool) {
    && Steady(a, b) && b.motors == a.motors && SlotsMoved(a.slots, b.slots)
    && (b.world.device == a.world.device
        || (operation == 0x55 && sent && index < |a.world.device|
            && b.world.device == a.world.device[index := Written(a.world.device[index], rid, Load(request.data[4..]))]))
    && (if sent then b.world.wire == a.world.wire + [request]
        else b.world.wire in {a.world.wire, a.world.wire + [request]})
  }

  /** Nothing has changed but samples, time, the wire, and possibly a fault. */
  predicate Undisturbed(a: Bus, b: Bus) {
    Steady(a, b) && b.motors == a.motors && SlotsMoved(a.slots, b.slots) && b.world.device == a.world.device
  }

  /** Only the configuration of motor `index` may differ, and not what it was registered with. */
  predicate OthersKept(a: seq<MotorConfig>, b: seq<MotorConfig>, index: nat) {
    && |b| == |a| && (forall j | 0 <= j < |a| && j != index :: b[j] == a[j])
    && (index < |a| ==> SameRegistration(a[index], b[index]))
  }

  /** Name, address and motion limits are registered once and for all. */
  predicate SameRegistration(a: MotorConfig, b: MotorConfig) {
    b.name == a.name && b.address == a.address && b.minPosition == a.minPosition && b.maxPosition == a.maxPosition
      && b.maxSpeed == a.maxSpeed
  }

  /** A mapping as it can be read from a device: positive limits that binary32 has. */
  predicate Readable(m: Mapping) {
    m.Valid() && Representable(m.position.value) && Representable(m.velocity.value) && Representable(m.torque.value)
  }

  /** The configuration after a verified write; `config` is the one from before the operation, `m` the doubted one. */
  function Applied(config: MotorConfig, m: MotorConfig, rid: Byte, value: RegisterValue): MotorConfig {
    if rid == 0x0A then
      if value.Word? && ModeOf(value.word).Some? then m.(mode := ModeOf(value.word).value, modeConfirmed := true) else m
    else if !value.Float? || rid !in {0x15, 0x16, 0x17} then m
    else
      var x := Finite(Value(value.bits));
      var mapping := if rid == 0x15 then m.mapping.(position := x)
                     else if rid == 0x16 then m.mapping.(velocity := x)
                     else m.mapping.(torque := x);
      m.(mapping := mapping, mappingConfirmed := config.mappingConfirmed)
  }

  datatype Report = Report(code: Code, previous: Option<RegisterValue>, readback: Option<RegisterValue>, sent: bool,
    verified: bool)

  function Refusal(code: Code): Report { Report(code, None, None, false, false) }

  /** A value that a register transaction returns: typed, and what an honest device holds. */
  predicate Reported(b: Bus, index: nat, rid: Byte, value: Option<RegisterValue>) {
    && RegisterInfo(rid).Some? && value.Some? && value.value.Float? == RegisterInfo(rid).value.float
    && (value.value.Float? ==> IsFinite(value.value.bits))
    && (b.honest ==> index < |b.world.device| && Holds(b.world.device[index], rid, value.value))
  }

  /** What a verified write has established: the read-back equals the request, and an honest device holds it. */
  predicate WriteVerified(b: Bus, index: nat, rid: Byte, value: RegisterValue, readback: Option<RegisterValue>)
    requires index < |b.motors|
  {
    && Reported(b, index, rid, readback) && SameValue(readback.value, value) && ValidateWrite(rid, value) == Ok
    && (rid == 0x0A ==> b.motors[index].modeConfirmed && Word(ModeCode(b.motors[index].mode)) == value)
    && (rid == 0x15 ==> value.Float? && b.motors[index].mapping.position == Finite(Value(value.bits)))
    && (rid == 0x16 ==> value.Float? && b.motors[index].mapping.velocity == Finite(Value(value.bits)))
    && (rid == 0x17 ==> value.Float? && b.motors[index].mapping.torque == Finite(Value(value.bits)))
  }

  function DoubtedMotors(motors: seq<MotorConfig>, index: nat, rid: Byte): seq<MotorConfig>
    requires index < |motors|
  {
    var m := motors[index];
    motors[index := m.(modeConfirmed := m.modeConfirmed && rid != 0x0A,
                       mappingConfirmed := m.mappingConfirmed && !(0x15 <= rid <= 0x17))]
  }

  /** The bus between sending a write and publishing it: only flags of motor `index` and its register differ. */
  predicate WriteDone(a: Bus, b: Bus, index: nat, rid: Byte) {
    && Steady(a, b) && index < |a.motors| && |a.slots| == |b.slots| && DeviceKept(a.world, b.world, index, rid)
    && b.motors == DoubtedMotors(a.motors, index, rid)
  }

  /** The gate of management operations. */
  predicate Enabled(slot: Slot) { slot.state.valid && slot.state.status == 1 }

  predicate Disabled(link: Link, slot: Slot) { link.FeedbackCode(slot) == Ok && slot.state.status == 0 }

  function Gate(link: Link, slots: seq<Slot>, index: nat, requireDisabled: bool): Code {
    if index >= |slots| then InvalidConfiguration
    else if link.mode != Maintenance || link.passive then InvalidCommand
    else if exists i | 0 <= i < |slots| :: Enabled(slots[i]) || (requireDisabled && !Disabled(link, slots[i]))
    then InvalidCommand
    else Ok
  }

  /** The registers that synchronisation reads: address, mode, mapping and firmware version. */
  const Synchronized: seq<Byte> := [0x08, 0x07, 0x0A, 0x15, 0x16, 0x17, 0x0E]

  /** An honest device answers under the address that is configured for it. */
  predicate Identified(b: Bus, index: nat)
    requires index < |b.motors|
  {
    b.honest && index < |b.world.device| ==>
      && Content(b.world.device[index], 0x08) == b.motors[index].address.esc
      && Content(b.world.device[index], 0x07) == b.motors[index].address.mst
  }

  /** What a query puts on the wire: at most the state query of the motor. */
  predicate QueryOnWire(a: seq<CanFrame>, b: seq<CanFrame>, esc: nat) {
    && a <= b && |b| <= |a| + 1
    && (|b| > |a| ==> IsRequest(b[|a|], esc, 0xCC, 0, 4, 0))
  }

  /** What a read puts on the wire: at most its own request. */
  predicate ReadOnWire(a: seq<CanFrame>, b: seq<CanFrame>, esc: nat, rid: Byte) {
    && a <= b && |b| <= |a| + 1
    && (|b| > |a| ==> IsRequest(b[|a|], esc, 0x33, rid, 4, 0))
  }

  /** What a write puts on the wire: a read of the old value, one write of the new one, and its read-back. */
  predicate WriteOnWire(a: seq<CanFrame>, b: seq<CanFrame>, esc: nat, rid: Byte, word: Bits) {
    && a <= b && |b| <= |a| + 3
    && (|b| > |a| ==> IsRequest(b[|a|], esc, 0x33, rid, 4, 0))
    && (|b| > |a| + 1 ==> IsRequest(b[|a| + 1], esc, 0x55, rid, 8, word))
    && (|b| > |a| + 2 ==> IsRequest(b[|a| + 2], esc, 0x33, rid, 4, 0))
  }

  /** What synchronising puts on the wire: reads of its registers, in order. */
  predicate ReadsOnWire(a: seq<CanFrame>, b: seq<CanFrame>, esc: nat) {
    && a <= b && |b| <= |a| + |Synchronized|
    && forall k | |a| <= k < |b| :: IsRequest(b[k], esc, 0x33, Synchronized[k - |a|], 4, 0)
  }

  function LimitRegister(n: nat): Byte
    requires n < 3
  {
    if n == 0 then 0x15 else if n == 1 then 0x16 else 0x17
  }

  function LimitWord(limits: Mapping, n: nat): Bits
    requires n < 3 && limits.Valid()
  {
    ToBits(if n == 0 then limits.position.value else if n == 1 then limits.velocity.value else limits.torque.value)
  }

  /** What writing the three limits puts on the wire: for each in turn a read, a write of its rounding, a read-back. */
  predicate LimitsOnWire(a: seq<CanFrame>, b: seq<CanFrame>, esc: nat, limits: Mapping)
    requires limits.Valid()
  {
    && a <= b && |b| <= |a| + 9
    && forall k | |a| <= k < |b| ::
      var n := (k - |a|) / 3;
      if (k - |a|) % 3 == 1 then IsRequest(b[k], esc, 0x55, LimitRegister(n), 8, LimitWord(limits, n))
      else IsRequest(b[k], esc, 0x33, LimitRegister(n), 4, 0)
  }

  /** The management of parameters runs on an active bus in maintenance with no motor enabled; a write, all disabled. */
  predicate Gated(b: Bus, requireDisabled: bool) {
    && b.link.mode == Maintenance && !b.link.passive
    && (forall i | 0 <= i < |b.slots| :: !(b.slots[i].state.valid && b.slots[i].state.status == 1))
    && (requireDisabled ==> forall i | 0 <= i < |b.slots| ::
          b.link.FeedbackCode(b.slots[i]) == Ok && b.slots[i].state.status == 0)
  }

  /** What a command puts on the wire: at most its own frame, and after it one state query of the motor. */
  predicate CommandOnWire(a: seq<CanFrame>, b: seq<CanFrame>, m: MotorConfig, command: Management) {
    && a <= b && |b| <= |a| + 2
    && (|b| > |a| ==> IsManagement(b[|a|], m.address.esc, m.mode, command))
    && (|b| == |a| + 2 ==> IsRequest(b[|a| + 1], m.address.esc, 0xCC, 0, 4, 0))
  }

  /** What the bus must know when a command is sent: all but a disable need a fresh sample of a stopped motor. */
  predicate MayCommand(b: Bus, index: nat, command: Management) {
    && index < |b.motors| && index < |b.slots|
    && b.link.mode != Closed && !b.link.passive
    && b.motors[index].modeConfirmed && b.motors[index].mappingConfirmed
    && (command == Enable ==> b.motors[index].mode == PositionVelocity && b.slots[index].state.status == 0)
    && (command != Disable ==>
          && b.link.mode == Maintenance && b.slots[index].state.valid && b.slots[index].state.status != 1
          && b.link.now - b.slots[index].state.receivedAt <= b.link.feedbackTimeout)
    && (command == Disable || b.link.mode != Fault)
  }

  /** A sample as it is handed out: valid only if nothing speaks against it. */
  function Trusted(link: Link, slot: Slot): MotorState {
    if link.FeedbackCode(slot) == Ok then slot.state else slot.state.(valid := false)
  }

  // ----- Motion batches -----

  /** The checks of one command against its motor. */
  predicate Permitted(m: MotorConfig, c: PositionCommand) {
    && m.Limited() && c.position.Finite? && c.maxSpeed.Finite?
    && Abs(c.position.value) <= Largest() && m.Allows(c.position.value)
    && 0.0 <= c.maxSpeed.value <= m.maxSpeed.value.value && c.maxSpeed.value <= Largest()
    && (c.position.value != 0.0 ==> Magnitude(ToBits(c.position.value)) != 0)
    && (c.maxSpeed.value != 0.0 ==> Magnitude(ToBits(c.maxSpeed.value)) != 0)
  }

  function CommandCode(link: Link, slot: Slot, m: MotorConfig, c: PositionCommand): Code {
    var code := link.FeedbackCode(slot);
    if code != Ok then code
    else if slot.state.status != 1 then MotorFault
    else if !Permitted(m, c) then InvalidCommand
    else Ok
  }

  function FrameFor(m: MotorConfig, c: PositionCommand): CanFrame {
    var encoded := EncodePositionVelocity(m.address.esc, c);
    if encoded.Success? then encoded.value else Frame(0, 0, [0, 0, 0, 0, 0, 0, 0, 0], 0)
  }

  function BatchFrames(motors: seq<MotorConfig>, commands: seq<PositionCommand>, n: nat): (f: seq<CanFrame>)
    requires n <= |motors| && n <= |commands|
    ensures |f| == n
  {
    if n == 0 then [] else BatchFrames(motors, commands, n - 1) + [FrameFor(motors[n - 1], commands[n - 1])]
  }

  lemma NextFrame(motors: seq<MotorConfig>, commands: seq<PositionCommand>, n: nat, before: seq<CanFrame>)
    requires n < |motors| && n < |commands|
    ensures before + BatchFrames(motors, commands, n + 1) == before + BatchFrames(motors, commands, n)
      + [FrameFor(motors[n], commands[n])]
  {
  }

  /**
   A command passes the checks exactly when its motor's limits are complete and allow it and it can be encoded: what
   passes never fails to be sent for its numbers.
   */
  lemma PermittedIff(m: MotorConfig, c: PositionCommand)
    requires m.address.Valid()
    ensures Permitted(m, c) <==>
      && m.Limited() && EncodePositionVelocity(m.address.esc, c).Success?
      && m.minPosition.value.value <= c.position.value <= m.maxPosition.value.value
      && 0.0 <= c.maxSpeed.value <= m.maxSpeed.value.value
  {
    hide ToBits;
    hide Largest;
  }

  /** The checks of one command: a good sample of an enabled motor, and a permitted target. */
  lemma CommandPassesIff(link: Link, slot: Slot, m: MotorConfig, c: PositionCommand)
    ensures CommandCode(link, slot, m, c) == Ok <==>
      && link.mode != Closed && slot.state.valid && slot.state.revision == slot.revision
      && slot.validAfter <= slot.state.receivedAt <= link.now <= slot.state.receivedAt + link.feedbackTimeout
      && slot.state.status == 1 && Permitted(m, c)
  {
    FeedbackCodeIff(link, slot);
    hide Permitted;
    hide Link.FeedbackCode;
  }

  /**
   A batch that starts has passed every check. Its attempts are the first frames in motor order; all but the
   last attempt succeeded, and what follows the attempts was not executed.
   */
  predicate Batched(a: Bus, b: Bus, commands: seq<PositionCommand>, attempts: nat, results: seq<Code>, code: Code)
    requires |a.motors| == |commands| == |a.slots| && attempts <= |commands|
  {
    && (forall i | 0 <= i < |commands| :: CommandCode(a.link, a.slots[i], a.motors[i], commands[i]) == Ok)
    && b.world.wire == a.world.wire + BatchFrames(a.motors, commands, attempts)
    && |results| == |commands| && attempts > 0
    && (forall i | 0 <= i < attempts - 1 :: results[i] == Ok)
    && (forall i | attempts <= i < |results| :: results[i] == NotExecuted)
    && (code == Ok <==> attempts == |commands| && results[attempts - 1] == Ok)
    && (code != Ok ==> results[attempts - 1] != Ok && b.link.mode == Fault
                       && code == if attempts == 1 then results[0] else PartialFailure)
  }

  lemma BatchedWire(a: Bus, b: Bus, commands: seq<PositionCommand>, attempts: nat, results: seq<Code>, code: Code)
    requires |a.motors| == |commands| == |a.slots| && attempts <= |commands|
    requires Batched(a, b, commands, attempts, results, code)
    ensures b.world.wire == a.world.wire + BatchFrames(a.motors, commands, attempts)
  {
  }

  /** The frames of a batch are those of its commands, in motor order. */
  lemma {:induction false} BatchIsInOrder(motors: seq<MotorConfig>, commands: seq<PositionCommand>, n: nat, k: nat)
    requires k < n <= |motors| && n <= |commands|
    ensures BatchFrames(motors, commands, n)[k] == FrameFor(motors[k], commands[k])
  {
    hide FrameFor;
    if k < n - 1 { BatchIsInOrder(motors, commands, n - 1, k); }
  }

  lemma SomeWereSent(a: Bus, b: Bus, commands: seq<PositionCommand>, attempts: nat, results: seq<Code>, code: Code)
    requires |a.motors| == |commands| == |a.slots| == |results| && 0 < attempts <= |commands|
    requires forall i | 0 <= i < |commands| :: CommandCode(a.link, a.slots[i], a.motors[i], commands[i]) == Ok
    requires b.world.wire == a.world.wire + BatchFrames(a.motors, commands, attempts)
    requires forall i | 0 <= i < attempts - 1 :: results[i] == Ok
    requires forall i | attempts <= i < |results| :: results[i] == NotExecuted
    requires if results[attempts - 1] == Ok then attempts == |commands| && code == Ok
             else b.link.mode == Fault && code == if attempts == 1 then results[0] else PartialFailure
    ensures Batched(a, b, commands, attempts, results, code)
  {
  }

  class DamiaoBus {
    /**
     Whether the devices answer requests truthfully and keep their registers otherwise; nothing is known of them if
     not.
     */
    const honest: bool
    var motors: seq<MotorConfig>
    var tables: Tables
    var slots: seq<Slot>
    var link: Link
    /** The other side of the wire; no thread of the host looks at it. */
    var world: World

    function View(): Bus
      reads this
    {
      Bus(honest, motors, tables, slots, link, world)
    }

    predicate Valid()
      reads this
    {
      Sound(View())
    }

    // ----- Registration and the life of the bus -----

    constructor (honest: bool)
      ensures Valid() && this.honest == honest && link.mode == Closed && !link.closing && motors == []
    {
      this.honest := honest;
      motors, slots, tables := [], [], NoMotors();
      link := AtRest;
      world := World([], None, [], []);
      new;
      NobodyIsSound(honest);
      hide Sound;
    }

    /** Enters a motor while the bus is closed, if no name or address conflicts; its mode is never taken on trust. */
    method RegisterMotor(m: MotorConfig, blank: MotorState, registers: Registers) returns (r: Result<nat>)
      requires Valid() && !blank.valid && blank.sequence == 0
      modifies this`motors, this`tables, this`slots, this`world
      ensures Valid()
      ensures r.Success? <==>
        link.mode == Closed
        && old(|tables.esc| == 16 && |tables.mst| == 2048 && Registrable(motors, tables, m))
      ensures r.Success? ==> m.address.Valid() && old(|tables.esc| == 16 && |tables.mst| == 2048)
      ensures r.Success? ==> r.value == old(|motors|) && View() == old(View()).Registered(m, blank, registers)
      ensures r.Success? ==>
        && motors == old(motors) + [m.(modeConfirmed := false)]
        && |tables.esc| == 16 && |tables.mst| == 2048
        && tables.esc[m.address.esc] == tables.mst[m.address.mst] == r.value
        && slots == old(slots) + [Slot(blank, 1, 0)]
      ensures r.Failure? ==> View() == old(View())
      ensures link == old(link)
    {
      ghost var start := View();
      TablesFit(start);
      hide Sound;
      if link.mode != Closed || |motors| == MaxMotors || m.name == "" || !m.address.Valid()
         || (m.mappingConfirmed && !m.mapping.Valid()) {
        return Failure(InvalidConfiguration);
      }
      if tables.esc[m.address.esc] >= 0 || tables.mst[m.address.mst] >= 0 {
        return Failure(InvalidConfiguration);
      }
      for i := 0 to |motors|
        invariant forall k | 0 <= k < i ::
          !(motors[k].name == m.name || motors[k].address.mst % 0x100 == m.address.esc
            || m.address.mst % 0x100 == motors[k].address.esc)
      {
        if motors[i].name == m.name || motors[i].address.mst % 0x100 == m.address.esc
           || m.address.mst % 0x100 == motors[i].address.esc {
          assert Conflicts(motors, m);
          return Failure(InvalidConfiguration);
        }
      }
      RegisteredKeepsSound(start, m, blank, registers);
      tables := Entered(tables, m.address, |motors|);
      motors := motors + [m.(modeConfirmed := false)];
      slots := slots + [Slot(blank, 1, 0)];
      world := world.(device := world.device + [registers]);
      return Success(|motors| - 1);
    }

    /** `transport` is what opening the transport returned, and `starts` whether the receiver could be started. */
    method Open(passive: bool, feedbackTimeout: int, quietPeriod: int, transport: Code, starts: bool)
                returns (code: Code)
      requires Valid()
      modifies this
      ensures Valid()
      ensures code == Ok <==>
        old(link).mode == Closed && old(motors) != [] && 0 < feedbackTimeout && 0 < quietPeriod
        && transport == Ok && starts
      ensures code == Ok ==> View() == old(View()).Opened(passive, feedbackTimeout, quietPeriod)
      ensures code == Ok ==>
        && link.mode == Maintenance && link.passive == passive && !link.stop && !link.closing && !link.pending.active
        && link.feedbackTimeout == feedbackTimeout && link.quietPeriod == quietPeriod
        && link.now == link.lastReceive == old(link).now
      ensures code == Ok ==> |slots| == |motors| && forall i | 0 <= i < |motors| ::
        && !motors[i].modeConfirmed && (motors[i].mappingConfirmed ==> passive)
        && !slots[i].state.valid && slots[i].validAfter == old(link).now
      ensures code != Ok && old(link).mode == Closed ==> link.mode == Closed
      ensures old(link).mode != Closed ==> View() == old(View())
      ensures !old(link).closing ==> !link.closing
      ensures code == Ok ==>
        |motors| == |old(motors)| && forall i | 0 <= i < |motors| :: SameRegistration(old(motors)[i], motors[i])
    {
      hide Sound;
      ghost var start := View();
      SoundSizes(start);
      if link.mode != Closed || |motors| == 0 || feedbackTimeout <= 0 || quietPeriod <= 0 {
        return InvalidConfiguration;
      }
      if transport != Ok {
        return transport;
      }
      OpenedKeepsSound(start, passive, feedbackTimeout, quietPeriod);
      Trust(passive);
      link := Link(Maintenance, passive, feedbackTimeout, quietPeriod, NoPending, false, false, link.now, link.now);
      assert View() == start.Opened(passive, feedbackTimeout, quietPeriod);
      if !starts {
        ShutDown();
        return Disconnected;
      }
      return Ok;
    }

    /** A new session withdraws every sample and confirmation, motor by motor; a listener keeps its mappings. */
    method Trust(passive: bool)
      requires |slots| == |motors|
      modifies this`motors, this`slots
      ensures motors == old(View()).Opened(passive, 1, 1).motors && slots == old(View()).Opened(passive, 1, 1).slots
    {
      ghost var target := View().Opened(passive, 1, 1);
      var m0, s0 := motors, slots;
      for i := 0 to |motors|
        invariant |motors| == |m0| && |slots| == |s0|
        invariant forall k | 0 <= k < i ::
          motors[k] == m0[k].(modeConfirmed := false, mappingConfirmed := m0[k].mappingConfirmed && passive)
            && slots[k] == s0[k].Renewed(link.now)
        invariant forall k | i <= k < |m0| :: motors[k] == m0[k] && slots[k] == s0[k]
      {
        slots := slots[i := slots[i].Renewed(link.now)];
        var m := motors[i].(modeConfirmed := false);
        motors := motors[i := if passive then m else m.(mappingConfirmed := false)];
      }
      assert forall k | 0 <= k < |motors| :: motors[k] == target.motors[k] && slots[k] == target.slots[k];
    }

    /** Stops the receiver, which may still route a frame meanwhile, and closes. */
    method ShutDown()
      requires Valid()
      modifies this
      ensures Valid() && link.mode == Closed && motors == old(motors) && !link.closing
      ensures forall i | 0 <= i < |slots| :: !slots[i].state.valid
    {
      hide Sound;
      ghost var start := View();
      ShutDownKeepsSound(start);
      link := link.(stop := true, closing := true);
      assert View() == start.Stopping();
      Interfere(0);
      MovedSteady(start.Stopping(), View());
      ghost var stopped := View();
      ShutDownKeepsSound(stopped);
      var before := slots;
      for i := 0 to |slots|
        invariant |slots| == |before| && View().(slots := stopped.slots) == stopped
        invariant forall k | 0 <= k < i :: slots[k] == before[k].(state := before[k].state.(valid := false))
        invariant forall k | i <= k < |slots| :: slots[k] == before[k]
      {
        slots := slots[i := slots[i].(state := slots[i].state.(valid := false))];
      }
      assert forall k | 0 <= k < |slots| :: slots[k] == stopped.ShutDown().slots[k];
      assert slots == stopped.ShutDown().slots;
      link := link.(mode := Closed, closing := false, pending := NoPending);
      assert View() == stopped.ShutDown();
    }

    /** Closing is refused while controlling. */
    method Close() returns (code: Code)
      requires Valid()
      modifies this
      ensures Valid()
      ensures code == Ok <==> old(link).mode != Control
      ensures if code == Ok then link.mode == Closed else View() == old(View())
    {
      if link.mode == Control {
        return InvalidCommand;
      }
      ShutDown();
      return Ok;
    }

    // ----- The receiver -----

    /** Settles a transaction, refreshes one slot, or drops the frame. */
    method RouteFrame(f: CanFrame)
      requires Valid() && (honest ==> Truthful(motors, tables, world, f))
      modifies this`slots, this`link, this`world
      ensures Valid() && View() == old(View()).Heard(f) && Moved(old(View()), View())
    {
      HeardKeepsSound(View(), f);
      hide Moved;
      hide Truthful;
      assert Addressed(motors, tables) && |slots| == |motors| by { SoundIsAddressed(View()); }
      hide Sound;
      link := link.(lastReceive := link.now);
      if f.id > 0x7FF || f.length > 8 || tables.mst[f.id] < 0 {
        return;
      }
      var i := tables.mst[f.id];
      if ParameterShaped(f, motors[i].address.esc) {
        link := ParameterReceived(motors[i], link, i, f);
        return;
      }
      var received := FeedbackReceived(motors[i], slots[i], link, i, f);
      if received.2 {
        slots, link := slots[i := received.0], received.1;
        world := world.(taken := world.taken + [Taken(i, f.receivedAt)]);
      }
    }

    /** One move of the surroundings: time passes, then the receiver dies, routes a frame, or does nothing. */
    method Disturb(pause: nat)
      requires Valid()
      modifies this`slots, this`link, this`world
      ensures Valid() && Moved(old(View()), View()) && old(link).now + pause <= link.now
    {
      hide Sound;
      hide Moved;
      hide Truthful;
      ghost var start := View();
      WaitedKeepsSound(start, pause);
      link := link.(now := link.now + pause);
      ghost var paused := View();
      assert paused == start.Waited(pause);
      var dies: bool, f: CanFrame := *, *;
      if dies && link.mode != Closed {
        DiedKeepsSound(paused);
        link := BusState.Died(link);
        assert View() == paused.Died();
        MovedOnward(start, paused, View());
      } else if honest ==> Hears(f) {
        RouteFrame(f);
        MovedOnward(start, paused, View());
        TimePasses(paused, View());
      }
    }

    /** Any number of such moves. */
    method Interfere(wait: nat)
      requires Valid()
      modifies this`slots, this`link, this`world
      ensures Valid() && Moved(old(View()), View()) && old(link).now + wait <= link.now
      ensures old(link).mode == Fault ==> link.mode == Fault
    {
      hide Sound;
      hide Moved;
      ghost var start := View();
      Disturb(wait);
      var steps: nat :| true;
      for step := 0 to steps
        invariant Valid() && Moved(start, View()) && start.link.now + wait <= link.now
      {
        var pause: nat :| true;
        ghost var before := View();
        Disturb(pause);
        MovedOnward(start, before, View());
      }
      MovedSteady(start, View());
    }

    /** Between two sections of an operation the cache is unlocked, and the receiver may act. */
    method Unlocked()
      requires Valid()
      modifies this`slots, this`link, this`world
      ensures Valid() && Moved(old(View()), View()) && Undisturbed(old(View()), View())
      ensures motors == old(motors) && |slots| == old(|slots|) && world.wire == old(world).wire
      ensures (link.mode == old(link).mode || (link.mode == Fault && old(link).mode != Closed))
        && link.passive == old(link).passive && link.closing == old(link).closing
    {
      hide Sound;
      hide Moved;
      hide Undisturbed;
      ghost var start := View();
      Interfere(0);
      MovedIsUndisturbed(start, View());
      UndisturbedKeeps(start, View());
      MovedSteady(start, View());
    }

    // ----- Transactions -----

    /**
     Waits for a quiet bus, enters the transaction, sends the request and waits for its answer.
     Once a request is out, everything but success latches the fault.
     */
    method Transact(index: nat, request: CanFrame, operation: Byte, rid: Byte, deadline: int)
      returns (code: Code, value: Option<RegisterValue>, sent: bool)
      requires Valid() && link.mode != Control && operation in {0x33, 0x55, 0xAA, 0xCC}
      requires operation == 0x55 && index < |motors| ==> Unvouched(motors[index], rid)
      modifies this
      ensures Valid() && Transacted(old(View()), View(), request, index, operation, rid, sent)
      ensures code == Ok ==> sent && index < |motors| && !link.passive && old(link).mode != Closed
      ensures sent && code != Ok ==> link.mode == Fault
      ensures code == Ok && operation in {0x33, 0x55} ==> Reported(View(), index, rid, value)
      ensures code == Ok && operation == 0xCC ==>
        index < |slots| && old(link).now <= slots[index].state.receivedAt
      ensures old(link).mode == Fault ==> link.mode == Fault
    {
      hide Sound;
      hide Unvouched;
      hide Quiet;
      hide Transacted;
      ghost var start := View();
      code := Enter(index, operation, rid, deadline);
      value, sent := None, false;
      if code == Ok {
        ghost var entered := View();
        QuietKeepsMotors(start, entered);
        code, value, sent := Exchange(request, deadline);
        TransactedSteady(entered, View(), request, index, operation, rid, sent);
        QuietThenTransacted(start, entered, View(), request, index, operation, rid, sent);
      } else {
        QuietIsTransacted(start, View(), request, index, operation, rid);
      }
      TransactedSteady(start, View(), request, index, operation, rid, sent);
    }

    /** Enters a transaction on a quiet, open bus, or says why not. */
    method Enter(index: nat, operation: Byte, rid: Byte, deadline: int) returns (code: Code)
      requires Valid() && link.mode != Control
      modifies this`slots, this`link, this`world
      ensures Valid() && Quiet(old(View()), View())
      ensures code == Ok ==>
        && index < |motors| && !link.passive && link.mode !in {Closed, Control} && old(link).mode != Closed
          && world.asked == None
        && link.pending == Pending(true, false, index, operation, rid, link.now, deadline, Ok, None)
      ensures code == Ok ==>
        && link.lastReceive + link.quietPeriod <= link.now < deadline && !link.stop
        && (link.mode == Fault ==> operation == 0xCC)
    {
      hide Sound;
      hide Moved;
      ghost var start := View();
      if index >= |motors| || link.mode == Closed || link.passive || (link.mode == Fault && operation != 0xCC) {
        return InvalidCommand;
      }
      WaitForQuiet(deadline);
      ghost var waited := View();
      MovedIsQuiet(start, waited);
      if link.stop {
        return Disconnected;
      }
      if link.now >= deadline {
        return Timeout;
      }
      if link.mode == Fault && operation != 0xCC {
        return BusError;
      }
      InstalledKeepsSound(waited, index, operation, rid, deadline);
      link := link.(pending := Pending(true, false, index, operation, rid, link.now, deadline, Ok, None));
      world := world.(asked := None);
      assert View() == waited.Installed(index, operation, rid, deadline);
      return Ok;
    }

    /** Sends the request of the pending transaction and waits for the answer. */
    method Exchange(request: CanFrame, deadline: int) returns (code: Code, value: Option<RegisterValue>, sent: bool)
      requires Valid() && link.pending.active && !link.pending.done && link.pending.index < |motors|
      requires link.mode !in {Closed, Control} && world.asked == None
      requires link.pending.operation == 0x55 ==> Unvouched(motors[link.pending.index], link.pending.rid)
      modifies this`slots, this`link, this`world
      ensures Valid()
      ensures Transacted(old(View()), View(), request, old(link).pending.index, old(link).pending.operation,
        old(link).pending.rid, sent)
      ensures code == Ok ==> sent
      ensures code != Ok ==> link.mode == Fault
      ensures code == Ok && old(link).pending.operation in {0x33, 0x55} ==>
        Reported(View(), old(link).pending.index, old(link).pending.rid, value)
      ensures code == Ok && old(link).pending.operation == 0xCC ==>
        && old(link).pending.index < |slots|
        && old(link).pending.sentAt <= slots[old(link).pending.index].state.receivedAt
    {
      hide Sound;
      hide Unvouched;
      hide Reported;
      hide Quiet;
      hide Transacted;
      ghost var start := View();
      code := Deliver(request);
      value, sent := None, code == Ok;
      if sent {
        ghost var out := View();
        code, value := Conclude(deadline);
        TransactedThenQuiet(start, out, View(), request, start.link.pending.index, start.link.pending.operation,
          start.link.pending.rid, sent);
      }
    }

    method Deliver(request: CanFrame) returns (code: Code)
      requires Valid() && link.pending.active && link.pending.index < |motors| && link.mode !in {Closed, Control}
        && world.asked == None
      requires link.pending.operation == 0x55 ==> Unvouched(motors[link.pending.index], link.pending.rid)
      modifies this`slots, this`link, this`world
      ensures Valid()
      ensures Transacted(old(View()), View(), request, old(link).pending.index, old(link).pending.operation,
        old(link).pending.rid, code == Ok)
      ensures code == Ok ==> link.mode != Closed && SameTransaction(old(link).pending, link.pending)
      ensures code != Ok ==> link.mode == Fault
    {
      hide Sound;
      hide Moved;
      hide Unvouched;
      hide Quiet;
      hide Transacted;
      ghost var start := View();
      Interfere(0);
      ghost var ready := View();
      SoundSizes(ready);
      MovedIsQuiet(start, ready);
      MovedSteady(start, ready);
      code := Send(request);
      SendingIsTransacted(start, ready, View(), request, code == Ok);
      if code == Ok { MovedFromSent(ready, View(), request); }
    }

    /** Waits for the answer and closes the transaction; without an answer its outcome is unknown, which is a fault. */
    method Conclude(deadline: int) returns (code: Code, value: Option<RegisterValue>)
      requires Valid() && link.pending.active && link.mode != Closed
      modifies this`slots, this`link, this`world
      ensures Valid() && Quiet(old(View()), View())
      ensures code != Ok ==> link.mode == Fault
      ensures code == Ok && old(link).pending.operation in {0x33, 0x55} ==>
        Reported(View(), old(link).pending.index, old(link).pending.rid, value)
      ensures code == Ok && old(link).pending.operation == 0xCC ==>
        && old(link).pending.index < |slots|
        && old(link).pending.sentAt <= slots[old(link).pending.index].state.receivedAt
    {
      hide Sound;
      hide Moved;
      hide Quiet;
      hide Reported;
      ghost var start := View();
      AwaitAnswer(deadline);
      ghost var answered := View();
      MovedSteady(start, answered);
      code := if link.pending.done then link.pending.code else Timeout;
      value := link.pending.value;
      AnswerIsReported(answered);
      if link.pending.done && link.pending.code == Ok && link.pending.operation == 0xCC { AnswerIsSampled(answered); }
      ReportedStays(answered, code, link.pending.index, link.pending.rid, value);
      ConcludedKeepsSound(answered, code);
      ConcludedIsQuiet(start, answered, code);
      link := link.(pending := link.pending.(active := false));
      if code != Ok {
        link := link.Faulted();
      }
      assert View() == answered.Concluded(code);
    }

    method WaitForQuiet(deadline: int)
      requires Valid()
      modifies this`slots, this`link, this`world
      ensures Valid() && Moved(old(View()), View())
      ensures link.stop || deadline <= link.now || link.lastReceive + link.quietPeriod <= link.now
    {
      hide Sound;
      ghost var start := View();
      WaitedKeepsSound(start, 0);
      assert start.Waited(0) == start;
      hide Moved;
      while !link.stop && link.now < deadline && link.now < link.lastReceive + link.quietPeriod
        invariant Valid() && Moved(start, View())
        decreases deadline - link.now
      {
        ghost var before := View();
        Interfere(1);
        MovedOnward(start, before, View());
      }
    }

    method AwaitAnswer(deadline: int)
      requires Valid()
      modifies this`slots, this`link, this`world
      ensures Valid() && Moved(old(View()), View())
      ensures link.pending.done || link.stop || deadline <= link.now
    {
      hide Sound;
      ghost var start := View();
      WaitedKeepsSound(start, 0);
      assert start.Waited(0) == start;
      hide Moved;
      while !link.pending.done && !link.stop && link.now < deadline
        invariant Valid() && Moved(start, View())
        decreases deadline - link.now
      {
        ghost var before := View();
        Interfere(1);
        MovedOnward(start, before, View());
      }
    }

    /**
     Hands the request of the pending transaction to the transport, which may refuse it; an accepted one may still
     be lost.
     */
    method Send(request: CanFrame) returns (code: Code)
      requires Valid() && link.pending.index < |motors| && link.mode != Closed && (honest ==> world.asked == None)
      requires link.pending.operation == 0x55 ==> Unvouched(motors[link.pending.index], link.pending.rid)
      modifies this`link, this`world
      ensures Valid()
      ensures code == Ok ==> exists delivered :: View() == old(View()).Sent(request, delivered)
      ensures code != Ok ==> View() == old(View()).SendFailed(request)
    {
      assert |world.device| == |motors| by { SoundSizes(View()); }
      hide Sound;
      hide Unvouched;
      ghost var before := View();
      code := *;
      if code != Ok {
        SendFailedKeepsSound(View(), request);
        link := link.(pending := link.pending.(active := false), mode := Fault);
        world := world.(wire := world.wire + [request]);
      } else {
        var delivered: bool := *;
        SentKeepsSound(View(), request, delivered);
        world := View().Sent(request, delivered).world;
        assert View() == before.Sent(request, delivered);
      }
    }

    // ----- Registers -----

    method ManagementGate(index: nat, requireDisabled: bool) returns (code: Code)
      ensures code == Gate(link, slots, index, requireDisabled)
      ensures code == Ok <==> index < |slots| && Gated(View(), requireDisabled)
    {
      if index >= |slots| {
        return InvalidConfiguration;
      }
      if link.mode != Maintenance || link.passive {
        return InvalidCommand;
      }
      for i := 0 to |slots|
        invariant forall k | 0 <= k < i :: !Enabled(slots[k]) && (requireDisabled ==> Disabled(link, slots[k]))
      {
        if Enabled(slots[i]) || (requireDisabled && !Disabled(link, slots[i])) {
          return InvalidCommand;
        }
      }
      return Ok;
    }

    /** The gate of an operation and the unlocking after it; `gated` is the bus at the moment of the check. */
    method PassGate(index: nat, requireDisabled: bool) returns (code: Code, ghost gated: Bus)
      requires Valid()
      modifies this`slots, this`link, this`world
      ensures Valid() && Undisturbed(old(View()), View())
      ensures motors == old(motors) && |slots| == old(|slots|) && world.wire == old(world).wire
      ensures Undisturbed(old(View()), gated)
      ensures code == Ok ==> index < |motors| && index < |slots| && Gated(gated, requireDisabled)
      ensures code == Ok ==> old(link).mode == Maintenance && link.mode in {Maintenance, Fault}
    {
      hide Sound;
      hide Moved;
      hide Undisturbed;
      ghost var start := View();
      SoundSizes(start);
      Unlocked();
      gated := View();
      UndisturbedKeeps(start, gated);
      code := ManagementGate(index, requireDisabled);
      if code == Ok {
        Unlocked();
        UndisturbedOnward(start, gated, View());
      }
    }

    /** Reads a register; `gated` is the bus at the moment of the check. */
    method ReadUnlocked(index: nat, rid: Byte, deadline: int)
      returns (code: Code, value: Option<RegisterValue>, ghost gated: Bus)
      requires Valid()
      modifies this
      ensures Valid() && Undisturbed(old(View()), View())
      ensures code == Ok ==> index < |motors| && old(link).mode == Maintenance && Reported(View(), index, rid, value)
      ensures old(link).mode == Fault ==> link.mode == Fault
      ensures if index < |motors| then ReadOnWire(old(world).wire, world.wire, motors[index].address.esc, rid)
              else world.wire == old(world).wire
      ensures code == Ok ==> |world.wire| == |old(world).wire| + 1
      ensures world.wire != old(world).wire ==> Undisturbed(old(View()), gated) && Gated(gated, false)
    {
      SoundSizes(View());
      hide Sound;
      hide Transacted;
      hide Reported;
      hide Undisturbed;
      hide Moved;
      hide Gated;
      hide ReadOnWire;
      ghost var start := View();
      if index < |motors| { NothingRead(world.wire, motors[index].address.esc, rid); }
      code, gated := PassGate(index, false);
      value := None;
      if code != Ok {
        return;
      }
      ghost var ready := View();
      var encoded := EncodeRead(motors[index].address.esc, rid);
      if encoded.Failure? {
        return encoded.code, None, gated;
      }
      var sent;
      code, value, sent := Transact(index, encoded.value, 0x33, rid, deadline);
      ReadIsUndisturbed(ready, View(), encoded.value, index, rid, sent, motors[index].address.esc);
      UndisturbedOnward(start, ready, View());
      UndisturbedKeeps(ready, View());
    }

    /** Reads the old value, withdraws trust, writes, reads back, and only then publishes the new configuration. */
    method WriteUnlocked(index: nat, rid: Byte, value: RegisterValue, deadline: int, verifyDisabled: bool)
                         returns (r: Report, ghost gated: Bus)
      requires Valid() && (!verifyDisabled ==> index < |motors| && link.mode != Control)
      modifies this
      ensures Valid() && Steady(old(View()), View()) && OthersKept(old(motors), motors, index)
      ensures DeviceKept(old(world), world, index, rid)
      ensures r.verified <==> r.code == Ok
      ensures r.verified ==> index < |motors| && WriteVerified(View(), index, rid, value, r.readback)
      ensures old(link).mode == Fault ==> link.mode == Fault
      ensures if index < |motors|
              then WriteOnWire(old(world).wire, world.wire, motors[index].address.esc, rid, RawBits(value))
              else world.wire == old(world).wire
      ensures r.verified ==> |world.wire| == |old(world).wire| + 3
      ensures r.verified ==> !slots[index].state.valid && slots[index].validAfter == link.now
      ensures world.wire != old(world).wire ==> Undisturbed(old(View()), gated) && Gated(gated, verifyDisabled)
    {
      hide Sound;
      hide Gated;
      hide ReadOnWire;
      hide WriteOnWire;
      hide RawBits;
      ghost var start := View();
      gated := start;
      if index < |motors| { NothingWritten(world.wire, motors[index].address.esc, rid, RawBits(value)); }
      SoundSizes(start);
      KeptItself(start, index, rid);
      UndisturbedItself(start);
      hide Moved;
      hide EncodeWrite;
      hide Undisturbed;
      hide Reported;
      hide OthersKept;
      hide DeviceKept;
      hide WriteVerified;
      hide Steady;
      if verifyDisabled {
        Unlocked();
        UnchangedKeeps(start, View(), index, rid);
        var gate := ManagementGate(index, true);
        if gate != Ok {
          return Refusal(gate), gated;
        }
      }
      if rid == 0x07 || rid == 0x08 || rid == 0x23 {
        return Refusal(Unsupported), gated;
      }
      gated := View();
      UndisturbedKeeps(start, gated);
      var config := motors[index];
      var encoded := EncodeWrite(config.address.esc, rid, value);
      if encoded.Failure? {
        EncodeFailsWithCode(config.address.esc, rid, value);
        return Refusal(encoded.code), gated;
      }
      var code, previous;
      ghost var reading;
      code, previous, reading := ReadAndUnlock(index, rid, deadline);
      ghost var ready := View();
      UndisturbedOnward(start, gated, ready);
      ReadOfWrite(start.world.wire, ready.world.wire, config.address.esc, rid, RawBits(value));
      UnchangedKeeps(start, ready, index, rid);
      if ready.world.wire != start.world.wire && !verifyDisabled {
        UndisturbedOnward(start, gated, reading);
        gated := reading;
      }
      if code != Ok {
        return Report(code, previous, None, false, false), gated;
      }
      UndisturbedKeeps(start, ready);
      r := WriteAndVerify(index, rid, value, encoded.value, config, previous, deadline);
      RestOfWrite(start.world.wire, ready.world.wire, world.wire, config.address.esc, rid, RawBits(value));
      AddressKept(ready.motors, motors, index);
      SteadyOnward(start, ready, View());
      SameDeviceKept(start.world, ready.world, world, index, rid);
    }

    /** The part of a write from the moment the configuration is in doubt. */
    method WriteAndVerify(index: nat, rid: Byte, value: RegisterValue, request: CanFrame, config: MotorConfig,
                          previous: Option<RegisterValue>, deadline: int) returns (r: Report)
      requires Valid() && index < |motors| && link.mode != Control && motors[index] == config
        && rid !in {0x07, 0x08, 0x23}
      requires EncodeWrite(config.address.esc, rid, value) == Success(request)
      modifies this
      ensures Valid() && Steady(old(View()), View()) && OthersKept(old(motors), motors, index)
      ensures DeviceKept(old(world), world, index, rid)
      ensures r.verified <==> r.code == Ok
      ensures r.verified ==> WriteVerified(View(), index, rid, value, r.readback)
      ensures WrittenOnWire(old(world).wire, world.wire, config.address.esc, rid, RawBits(value))
      ensures r.verified ==> |world.wire| == |old(world).wire| + 2
      ensures r.verified ==> index < |slots| && !slots[index].state.valid && slots[index].validAfter == link.now
    {
      hide ReadOnWire;
      hide WrittenOnWire;
      hide RawBits;
      ghost var start := View();
      NoneWritten(start.world.wire, config.address.esc, rid, RawBits(value));
      EncodedIsValid(config.address.esc, rid, value, request);
      hide Sound;
      hide EncodeWrite;
      hide WriteDone;
      hide OthersKept;
      hide DeviceKept;
      hide WriteVerified;
      hide ValidateWrite;
      hide Steady;
      var code, acknowledgement, sent := WriteInDoubt(index, rid, request, deadline);
      WriteDoneGives(start, View(), index, rid);
      ghost var out := world.wire;
      SentOnWire(start.world.wire, out, request, config.address.esc, rid, value);
      if code != Ok {
        return Report(code, previous, None, sent, false);
      }
      r := VerifyWrite(index, rid, value, config, acknowledgement, previous, deadline, start);
      VerifiedOnWire(start.world.wire, request, world.wire, config.address.esc, rid, value);
    }

    /** Withdraws the trust that the write puts at stake, then sends it. */
    method WriteInDoubt(index: nat, rid: Byte, request: CanFrame, deadline: int)
      returns (code: Code, acknowledgement: Option<RegisterValue>, sent: bool)
      requires Valid() && index < |motors| && link.mode != Control
      modifies this
      ensures Valid() && WriteDone(old(View()), View(), index, rid) && OthersKept(old(motors), motors, index)
      ensures code == Ok ==> old(link).mode != Closed && link.mode !in {Closed, Control}
      ensures sent && code != Ok ==> link.mode == Fault
      ensures world.wire in {old(world).wire, old(world).wire + [request]}
      ensures code == Ok ==> world.wire == old(world).wire + [request]
    {
      hide Sound;
      ghost var start := View();
      SoundSizes(start);
      hide Reported;
      hide Transacted;
      hide OthersKept;
      hide WriteDone;
      DoubtedIsUnvouched(start, index, rid);
      hide Bus.Doubted;
      hide Unvouched;
      hide Steady;
      hide Moved;
      hide Undisturbed;
      Doubt(index, rid == 0x0A, 0x15 <= rid <= 0x17);
      ghost var doubted := View();
      Unlocked();
      ghost var ready := View();
      code, acknowledgement, sent := Transact(index, request, 0x55, rid, deadline);
      DisturbedThenTransacted(doubted, ready, View(), request, index, 0x55, rid, sent);
      TransactedWire(doubted, View(), request, index, 0x55, rid, sent);
      WrittenKeeps(start, doubted, View(), request, index, rid, sent);
      WriteDoneGives(start, View(), index, rid);
    }

    /** Acknowledgement and read-back must both equal the request before anything is published. */
    method VerifyWrite(index: nat, rid: Byte, value: RegisterValue, config: MotorConfig,
                       acknowledgement: Option<RegisterValue>,
                       previous: Option<RegisterValue>, deadline: int, ghost start: Bus) returns (r: Report)
      requires Valid() && index < |motors| && link.mode !in {Closed, Control} && ValidateWrite(rid, value) == Ok
      requires Sound(start) && start.link.mode !in {Closed, Control} && WriteDone(start, View(), index, rid)
      requires start.motors[index] == config && OthersKept(start.motors, motors, index)
      modifies this
      ensures Valid() && Steady(start, View()) && OthersKept(start.motors, motors, index)
        && DeviceKept(start.world, world, index, rid)
      ensures r.verified <==> r.code == Ok
      ensures r.verified ==> WriteVerified(View(), index, rid, value, r.readback)
      ensures ReadOnWire(old(world).wire, world.wire, config.address.esc, rid)
      ensures r.verified ==> |world.wire| == |old(world).wire| + 1
      ensures r.verified ==> index < |slots| && !slots[index].state.valid && slots[index].validAfter == link.now
    {
      hide ReadOnWire;
      hide Sound;
      hide Reported;
      hide SameValue;
      hide ValidateWrite;
      hide OthersKept;
      hide DeviceKept;
      hide WriteVerified;
      hide WriteDone;
      WriteDoneGives(start, View(), index, rid);
      var code, readback := ReadBack(index, rid, config, deadline, start);
      WriteDoneGives(start, View(), index, rid);
      if code != Ok {
        return Report(code, previous, readback, true, false);
      }
      if acknowledgement.None? || !SameValue(acknowledgement.value, value) || readback.None?
         || !SameValue(readback.value, value) {
        LatchedKeepsSound(View());
        link := link.Faulted();
        return Report(AmbiguousReply, previous, readback, true, false);
      }
      ReportedTyped(View(), index, rid, readback);
      CommitWrite(index, rid, value, config, readback, start);
      return Report(Ok, previous, readback, true, true);
    }

    /** The read-back of a write leaves all as the write has left it. */
    method ReadBack(index: nat, rid: Byte, config: MotorConfig, deadline: int, ghost start: Bus)
      returns (code: Code, readback: Option<RegisterValue>)
      requires Valid() && index < |motors| && link.mode !in {Closed, Control}
      requires WriteDone(start, View(), index, rid)
      requires index < |start.motors| && start.motors[index] == config && OthersKept(start.motors, motors, index)
      modifies this
      ensures Valid() && WriteDone(start, View(), index, rid) && OthersKept(start.motors, motors, index)
      ensures motors == old(motors) && link.mode !in {Closed, Control}
      ensures code == Ok ==> Reported(View(), index, rid, readback)
      ensures ReadOnWire(old(world).wire, world.wire, config.address.esc, rid)
      ensures code == Ok ==> |world.wire| == |old(world).wire| + 1
    {
      AddressKept(start.motors, motors, index);
      hide Gated;
      hide ReadOnWire;
      hide Sound;
      hide Reported;
      hide Undisturbed;
      hide OthersKept;
      hide WriteDone;
      hide Moved;
      ghost var written := View();
      ghost var gated;
      code, readback, gated := ReadAndUnlock(index, rid, deadline);
      UndisturbedKeeps(written, View());
      ReadKeeps(start, written, View(), index, rid);
    }

    /** A read, after which the lock is free again. */
    method ReadAndUnlock(index: nat, rid: Byte, deadline: int)
      returns (code: Code, value: Option<RegisterValue>, ghost gated: Bus)
      requires Valid()
      modifies this
      ensures Valid() && Undisturbed(old(View()), View())
      ensures code == Ok ==> index < |motors| && old(link).mode == Maintenance && Reported(View(), index, rid, value)
      ensures if index < |motors| then ReadOnWire(old(world).wire, world.wire, motors[index].address.esc, rid)
              else world.wire == old(world).wire
      ensures code == Ok ==> |world.wire| == |old(world).wire| + 1
      ensures world.wire != old(world).wire ==> Undisturbed(old(View()), gated) && Gated(gated, false)
    {
      hide Sound;
      hide Gated;
      hide ReadOnWire;
      hide Moved;
      hide Undisturbed;
      hide Reported;
      ghost var start := View();
      code, value, gated := ReadUnlocked(index, rid, deadline);
      ghost var read := View();
      Unlocked();
      if code == Ok { ReportedMoves(read, View(), index, rid, value); }
      UndisturbedOnward(start, read, View());
    }

    method Doubt(index: nat, mode: bool, mapping: bool)
      requires Valid() && index < |motors| && |slots| == |motors| && link.mode != Control
      modifies this`motors, this`slots
      ensures Valid() && View() == old(View()).Doubted(index, mode, mapping)
      ensures motors == old(motors)[index := old(motors)[index].(
        modeConfirmed := old(motors)[index].modeConfirmed && !mode,
        mappingConfirmed := old(motors)[index].mappingConfirmed && !mapping)]
      ensures !slots[index].state.valid && slots[index].revision == old(slots)[index].revision + 1
        && slots[index].validAfter == link.now
    {
      DoubtedKeepsSound(View(), index, mode, mapping);
      hide Sound;
      var m := motors[index];
      slots := slots[index := slots[index].Invalidated(link.now)];
      motors := motors[index := m.(modeConfirmed := m.modeConfirmed && !mode, mappingConfirmed := m.mappingConfirmed
        && !mapping)];
    }

    /** Publishes what a write has established; `start` is the bus from before it. */
    method CommitWrite(index: nat, rid: Byte, value: RegisterValue, config: MotorConfig,
                       readback: Option<RegisterValue>, ghost start: Bus)
      requires Valid() && index < |motors| && link.mode !in {Closed, Control}
      requires Reported(View(), index, rid, readback) && SameValue(readback.value, value)
        && ValidateWrite(rid, value) == Ok
      requires Sound(start) && WriteDone(start, View(), index, rid) && start.link.mode !in {Closed, Control}
        && start.motors[index] == config
      modifies this`motors, this`slots
      ensures Valid() && Steady(start, View()) && OthersKept(start.motors, motors, index)
        && DeviceKept(start.world, world, index, rid)
      ensures link == old(link) && world == old(world) && WriteVerified(View(), index, rid, value, readback)
      ensures index < |slots| && !slots[index].state.valid && slots[index].validAfter == link.now
    {
      hide Sound;
      ghost var before := View();
      SoundSizes(before);
      SoundSizes(start);
      var m := Applied(config, motors[index], rid, value);
      AppliedIsBorneOut(start, before, index, rid, value, readback);
      CommittedKeepsSound(before, index, m);
      AppliedIsVerified(before, index, rid, value, readback, config);
      AppliedKeepsOthers(start, before, index, rid, m);
      hide Applied;
      motors := motors[index := m];
      slots := slots[index := slots[index].Renewed(link.now)];
      assert View() == before.Committed(index, m);
    }

    // ----- Synchronisation -----

    /** Reads the seven registers that make a configuration trustworthy, and publishes it only if all of them agree. */
    method Synchronize(index: nat, deadline: int) returns (code: Code, ghost gated: Bus)
      requires Valid()
      modifies this
      ensures Valid() && Steady(old(View()), View()) && OthersKept(old(motors), motors, index)
        && world.device == old(world).device
      ensures code == Ok ==>
        index < |motors| && motors[index].modeConfirmed && motors[index].mappingConfirmed
        && Identified(View(), index)
      ensures code == Ok ==> Readable(motors[index].mapping)
      ensures code != Ok ==>
        motors == old(motors)
        || (index < |motors| && !motors[index].modeConfirmed && !motors[index].mappingConfirmed)
      ensures old(link).mode == Fault ==> link.mode == Fault
      ensures if index < |motors| then ReadsOnWire(old(world).wire, world.wire, motors[index].address.esc)
              else world.wire == old(world).wire
      ensures code == Ok ==> |world.wire| == |old(world).wire| + 7
      ensures code == Ok ==> index < |slots| && !slots[index].state.valid && slots[index].validAfter == link.now
      ensures world.wire != old(world).wire || motors != old(motors) ==>
        Undisturbed(old(View()), gated) && Gated(gated, false)
    {
      hide Sound;
      ghost var start := View();
      SoundSizes(start);
      hide Undisturbed;
      hide Reported;
      hide Moved;
      hide Gated;
      hide ReadsOnWire;
      if index < |motors| { NothingSynchronized(world.wire, motors[index].address.esc); }
      code, gated := PassGate(index, false);
      ghost var ready := View();
      UndisturbedKeeps(start, ready);
      if code != Ok {
        return;
      }
      Doubt(index, true, true);
      ghost var doubted := View();
      var values;
      code, values := ReadAllAndUnlock(index, deadline);
      UndisturbedKeeps(doubted, View());
      DoubtedKeepsOthers(ready, index);
      if code != Ok {
        return;
      }
      code := PublishSynchronized(index, values);
    }

    /** Checks what was read against the registration, and publishes mode and mapping. */
    method PublishSynchronized(index: nat, values: seq<RegisterValue>) returns (code: Code)
      requires Valid() && index < |motors| && link.mode !in {Closed, Control} && AllRead(View(), index, values)
      modifies this
      ensures Valid() && Steady(old(View()), View()) && OthersKept(old(motors), motors, index) && world == old(world)
      ensures code == Ok ==> motors[index].modeConfirmed && motors[index].mappingConfirmed && Identified(View(), index)
      ensures code == Ok ==> Readable(motors[index].mapping)
      ensures code == Ok ==> index < |slots| && !slots[index].state.valid && slots[index].validAfter == link.now
      ensures code != Ok ==> motors == old(motors)
    {
      hide Sound;
      ghost var before := View();
      SoundSizes(before);
      ReadValuesAreTyped(before, index, values);
      hide Value;
      hide Synchronized;
      var mapping := Mapping(Finite(Value(values[3].bits)), Finite(Value(values[4].bits)),
        Finite(Value(values[5].bits)));
      if values[0].word != motors[index].address.esc || values[1].word != motors[index].address.mst
         || ModeOf(values[2].word).None? || !mapping.Valid()
      {
        LatchedKeepsSound(before);
        link := link.Faulted();
        return InvalidConfiguration;
      }
      var m := motors[index].(mode := ModeOf(values[2].word).value, modeConfirmed := true, mapping := mapping,
        mappingConfirmed := true);
      ReadValuesAgree(before, index, values, m);
      ReadMappingIsReadable(before, index, values, mapping);
      CommittedKeepsSound(before, index, m);
      hide ModeOf;
      hide AllRead;
      hide ModeAgrees;
      hide MappingAgrees;
      motors := motors[index := m];
      slots := slots[index := slots[index].Renewed(link.now)];
      assert View() == before.Committed(index, m);
      return Ok;
    }

    /** All reads, after which the lock is free again. */
    method ReadAllAndUnlock(index: nat, deadline: int) returns (code: Code, values: seq<RegisterValue>)
      requires Valid()
      modifies this
      ensures Valid() && Undisturbed(old(View()), View())
      ensures code == Ok ==> index < |motors| && link.mode != Closed && AllRead(View(), index, values)
      ensures if index < |motors| then ReadsOnWire(old(world).wire, world.wire, motors[index].address.esc)
              else world.wire == old(world).wire
      ensures code == Ok ==> |world.wire| == |old(world).wire| + 7
    {
      hide ReadsOnWire;
      hide Sound;
      hide Moved;
      hide Undisturbed;
      hide AllRead;
      ghost var start := View();
      code, values := ReadAll(index, deadline);
      ghost var read := View();
      Unlocked();
      if code == Ok { AllReadMoves(read, View(), index, values); }
      UndisturbedOnward(start, read, View());
    }

    method ReadAll(index: nat, deadline: int) returns (code: Code, values: seq<RegisterValue>)
      requires Valid()
      modifies this
      ensures Valid() && Undisturbed(old(View()), View())
      ensures code == Ok ==> index < |motors| && link.mode != Closed && AllRead(View(), index, values)
      ensures if index < |motors| then ReadsOnWire(old(world).wire, world.wire, motors[index].address.esc)
              else world.wire == old(world).wire
      ensures code == Ok ==> |world.wire| == |old(world).wire| + 7
    {
      hide Sound;
      hide Reported;
      hide Gated;
      hide ReadOnWire;
      hide ReadsOnWire;
      ghost var start := View();
      if index < |motors| { NothingSynchronized(world.wire, motors[index].address.esc); }
      code, values := Ok, [];
      UndisturbedItself(start);
      hide Undisturbed;
      for k := 0 to |Synchronized|
        invariant Valid() && Undisturbed(start, View()) && |values| == k && code == Ok
        invariant k > 0 ==> index < |motors| && link.mode != Closed
        invariant motors == start.motors && |world.wire| == |start.world.wire| + k
        invariant if index < |motors| then ReadsOnWire(start.world.wire, world.wire, motors[index].address.esc)
                  else world.wire == start.world.wire
        invariant forall j | 0 <= j < k :: Reported(View(), index, Synchronized[j], Some(values[j]))
      {
        ghost var before := View();
        var value;
        ghost var gated;
        code, value, gated := ReadUnlocked(index, Synchronized[k], deadline);
        UndisturbedOnward(start, before, View());
        UndisturbedKeeps(before, View());
        if index < |motors| {
          ReadsOnward(start.world.wire, before.world.wire, world.wire, motors[index].address.esc, k);
        }
        if code != Ok {
          return;
        }
        ReportedTyped(View(), index, Synchronized[k], value);
        ReportedKept(before, View(), index, values);
        values := values + [value.value];
      }
    }

    // ----- Mapping limits -----

    /** The three writes in turn; only after all of them is the mapping published, unrounded. */
    method WriteMappingLimits(index: nat, limits: Mapping, deadline: int) returns (code: Code, ghost gated: Bus)
      requires Valid()
      modifies this
      ensures Valid() && Steady(old(View()), View()) && OthersKept(old(motors), motors, index)
      ensures code == Ok ==> index < |motors| && motors[index].mapping == limits && motors[index].mappingConfirmed
      ensures code == Ok && honest ==> index < |world.device| && MappingAgrees(motors[index], world.device[index])
      ensures old(link).mode == Fault ==> link.mode == Fault
      ensures if index < |motors| && limits.Valid()
              then LimitsOnWire(old(world).wire, world.wire, motors[index].address.esc, limits)
              else world.wire == old(world).wire
      ensures code == Ok ==> |world.wire| == |old(world).wire| + 9
      ensures world.wire != old(world).wire || motors != old(motors) ==>
        Undisturbed(old(View()), gated) && Gated(gated, true)
    {
      hide Sound;
      hide Moved;
      hide Gated;
      hide WriteOnWire;
      hide LimitsOnWire;
      ghost var start := View();
      gated := start;
      SoundSizes(start);
      KeptItself(start, index, 0x15);
      hide Steady;
      hide OthersKept;
      hide DeviceKept;
      hide Undisturbed;
      hide WriteVerified;
      hide ToBits;
      if !limits.Valid() {
        return InvalidConfiguration, gated;
      }
      if index < |motors| { NoLimits(world.wire, motors[index].address.esc, limits); }
      code, gated := WithdrawMapping(index);
      if code == Ok {
        code := WriteLimits(index, limits, deadline, start);
        AddressKept(start.motors, motors, index);
      }
    }

    /** The three writes, and the publication of the limits. */
    method WriteLimits(index: nat, limits: Mapping, deadline: int, ghost start: Bus) returns (code: Code)
      requires Valid() && index < |motors| && link.mode != Control && limits.Valid()
      requires Steady(start, View()) && OthersKept(start.motors, motors, index)
      modifies this
      ensures Valid() && Steady(start, View()) && OthersKept(start.motors, motors, index)
      ensures code == Ok ==> motors[index].mapping == limits && motors[index].mappingConfirmed
      ensures code == Ok && honest ==> index < |world.device| && MappingAgrees(motors[index], world.device[index])
      ensures LimitsOnWire(old(world).wire, world.wire, old(motors)[index].address.esc, limits)
      ensures code == Ok ==> |world.wire| == |old(world).wire| + 9
    {
      hide Sound;
      hide Steady;
      hide OthersKept;
      hide DeviceKept;
      hide ToBits;
      hide WriteOnWire;
      hide LimitsOnWire;
      ghost var before := View();
      ghost var esc := motors[index].address.esc;
      NoLimits(world.wire, esc, limits);
      code := WriteLimit(index, 0x15, limits.position.value, deadline, start, esc);
      ghost var m1 := View();
      LimitsOnward(before.world.wire, before.world.wire, m1.world.wire, esc, limits, 0);
      if code == Ok {
        code := WriteLimit(index, 0x16, limits.velocity.value, deadline, start, esc);
        LimitsOnward(before.world.wire, m1.world.wire, world.wire, esc, limits, 1);
      }
      ghost var m2 := View();
      if code == Ok {
        code := WriteLimit(index, 0x17, limits.torque.value, deadline, start, esc);
        LimitsOnward(before.world.wire, m2.world.wire, world.wire, esc, limits, 2);
      }
      if code == Ok {
        PublishLimits(index, limits, m1, m2, start);
      }
    }

    /** One of the three writes; afterwards the lock is free again. */
    method WriteLimit(index: nat, rid: Byte, x: real, deadline: int, ghost start: Bus, ghost esc: nat)
      returns (code: Code)
      requires Valid() && index < |motors| && link.mode != Control && rid in {0x15, 0x16, 0x17}
      requires Steady(start, View()) && OthersKept(start.motors, motors, index) && motors[index].address.esc == esc
      modifies this
      ensures Valid() && Steady(start, View()) && OthersKept(start.motors, motors, index)
      ensures DeviceKept(old(world), world, index, rid) && |motors| == old(|motors|) && link.mode != Control
      ensures motors[index].address.esc == esc && WriteOnWire(old(world).wire, world.wire, esc, rid, ToBits(x))
      ensures code == Ok ==> |world.wire| == |old(world).wire| + 3
      ensures code == Ok ==> index < |world.device| && (honest ==> Content(world.device[index], rid) == ToBits(x))
    {
      hide Sound;
      hide Moved;
      hide Steady;
      hide OthersKept;
      hide DeviceKept;
      hide Undisturbed;
      hide WriteVerified;
      hide ToBits;
      hide Gated;
      hide WriteOnWire;
      ghost var before := View();
      var r;
      ghost var gated;
      r, gated := WriteUnlocked(index, rid, Float(ToBits(x)), deadline, false);
      ghost var written := View();
      code := r.code;
      SoundSizes(before);
      SoundSizes(written);
      AddressKept(before.motors, written.motors, index);
      KeptOnward(start, before, written, index);
      if r.verified { WrittenWord(written, index, rid, x, r.readback); }
      Unlocked();
      UnchangedKeeps(written, View(), index, rid);
      KeptOnward(start, written, View(), index);
      SameDeviceAfter(before.world, written.world, world, index, rid);
    }

    /** The gate of writing limits; behind it the mapping is no longer confirmed. */
    method WithdrawMapping(index: nat) returns (code: Code, ghost gated: Bus)
      requires Valid()
      modifies this
      ensures Valid() && Steady(old(View()), View()) && OthersKept(old(motors), motors, index)
      ensures code == Ok ==> index < |motors| && link.mode != Control && !motors[index].mappingConfirmed
      ensures world.wire == old(world).wire
      ensures if code == Ok then Undisturbed(old(View()), gated) && Gated(gated, true) else motors == old(motors)
    {
      hide Sound;
      hide Moved;
      hide Gated;
      ghost var start := View();
      SoundSizes(start);
      KeptItself(start, index, 0x15);
      hide Steady;
      hide OthersKept;
      hide Undisturbed;
      code, gated := PassGate(index, true);
      ghost var ready := View();
      UnchangedKeeps(start, ready, index, 0x15);
      if code == Ok {
        DoubtedKeepsSound(ready, index, false, true);
        MappingDoubtedKeeps(ready, index);
        motors := motors[index := motors[index].(mappingConfirmed := false)];
        assert View() == ready.MappingDoubted(index);
        KeptOnward(start, ready, View(), index);
      }
    }

    /** `m1` and `m2` are the bus after the first and the second write. */
    method PublishLimits(index: nat, limits: Mapping, ghost m1: Bus, ghost m2: Bus, ghost start: Bus)
      requires Valid() && index < |motors| && limits.Valid() && link.mode != Control
      requires index < |m1.world.device| && DeviceKept(m1.world, m2.world, index, 0x16)
        && DeviceKept(m2.world, world, index, 0x17)
      requires honest ==> Content(m1.world.device[index], 0x15) == ToBits(limits.position.value)
      requires honest ==>
        index < |m2.world.device|
        && Content(m2.world.device[index], 0x16) == ToBits(limits.velocity.value)
      requires honest ==> index < |world.device| && Content(world.device[index], 0x17) == ToBits(limits.torque.value)
      requires Steady(start, View()) && OthersKept(start.motors, motors, index)
      modifies this`motors, this`slots
      ensures Valid() && Steady(start, View()) && OthersKept(start.motors, motors, index) && world == old(world)
      ensures motors[index].mapping == limits && motors[index].mappingConfirmed
      ensures honest ==> index < |world.device| && MappingAgrees(motors[index], world.device[index])
    {
      hide Sound;
      ghost var before := View();
      SoundSizes(before);
      var m := motors[index].(mapping := limits, mappingConfirmed := true);
      LimitsAreBorneOut(before, index, limits, m1, m2);
      CommittedKeepsSound(before, index, m);
      hide MappingAgrees;
      hide DeviceKept;
      motors := motors[index := m];
      slots := slots[index := slots[index].Renewed(link.now)];
      assert View() == before.Committed(index, m);
    }

    // ----- Queries and management commands -----

    method QueryUnlocked(index: nat, deadline: int) returns (code: Code, state: Option<MotorState>)
      requires Valid()
      modifies this
      ensures Valid() && Undisturbed(old(View()), View())
      ensures code == Ok ==>
        index < |slots| && state == Some(slots[index].state)
        && link.FeedbackCode(slots[index]) == Ok
      ensures code == Ok ==> old(link).mode != Control && motors[index].mappingConfirmed
      ensures code == Ok ==> old(link).now <= slots[index].state.receivedAt
      ensures old(link).mode == Fault ==> link.mode == Fault
      ensures index < |motors| ==> QueryOnWire(old(world).wire, world.wire, motors[index].address.esc)
      ensures code == Ok ==> |world.wire| == |old(world).wire| + 1
      ensures world.wire != old(world).wire ==>
        index < |motors| && motors[index].mappingConfirmed && old(link).mode != Control
    {
      hide Sound;
      ghost var start := View();
      SoundSizes(start);
      UndisturbedItself(start);
      hide QueryOnWire;
      if index < |motors| { QuietOnWire(world.wire, motors[index].address.esc); }
      hide Transacted;
      hide Undisturbed;
      hide Moved;
      state := None;
      if link.mode == Control {
        return InvalidCommand, None;
      }
      Unlocked();
      ghost var ready := View();
      if index >= |motors| || !motors[index].mappingConfirmed {
        return InvalidConfiguration, None;
      }
      var encoded := EncodeStateQuery(motors[index].address.esc);
      if encoded.Failure? {
        return encoded.code, None;
      }
      var value, sent;
      code, value, sent := Transact(index, encoded.value, 0xCC, 0, deadline);
      QueryIsUndisturbed(ready, View(), encoded.value, index, sent, motors[index].address.esc);
      UndisturbedOnward(start, ready, View());
      ghost var queried := View();
      Unlocked();
      UndisturbedOnward(start, queried, View());
      UndisturbedKeeps(start, View());
      SamplesGetNewer(queried, View());
      SoundSizes(View());
      if code == Ok {
        code := link.FeedbackCode(slots[index]);
        state := if code == Ok then Some(slots[index].state) else None;
      }
    }

    /** The cached sample of one motor, with what its age and status say of it. */
    method Snapshot(index: nat) returns (code: Code, state: MotorState)
      requires Valid() && index < |slots|
      modifies this`slots, this`link, this`world
      ensures Valid() && Undisturbed(old(View()), View()) && |slots| == old(|slots|)
      ensures world.wire == old(world).wire
      ensures state == slots[index].state && code == link.FeedbackCode(slots[index])
    {
      hide Sound;
      hide Moved;
      hide Undisturbed;
      Unlocked();
      return link.FeedbackCode(slots[index]), slots[index].state;
    }

    /** All cached samples at one moment; a sample that cannot be relied on is handed out as invalid. */
    method SnapshotAll() returns (code: Code, states: seq<MotorState>)
      requires Valid()
      modifies this`slots, this`link, this`world
      ensures Valid() && motors == old(motors) && link.closing == old(link).closing
      ensures |states| == |slots| == |motors|
        && (code == Ok <==> forall i | 0 <= i < |slots| :: link.FeedbackCode(slots[i]) == Ok)
      ensures forall i | 0 <= i < |slots| :: states[i] == Trusted(link, slots[i])
      ensures forall i | 0 <= i < |slots| ::
        && states[i] == slots[i].state.(valid := states[i].valid)
        && (states[i].valid <==> slots[i].state.valid && link.FeedbackCode(slots[i]) == Ok)
    {
      hide Sound;
      hide Moved;
      hide Undisturbed;
      hide Link.FeedbackCode;
      Unlocked();
      SoundSizes(View());
      code, states := Ok, [];
      for i := 0 to |slots|
        invariant |states| == i && forall k | 0 <= k < i :: states[k] == Trusted(link, slots[k])
        invariant code == Ok <==> forall k | 0 <= k < i :: link.FeedbackCode(slots[k]) == Ok
      {
        var one := link.FeedbackCode(slots[i]);
        states := states + [Trusted(link, slots[i])];
        code := if one != Ok then one else code;
      }
    }

    /** What a command demands of the bus before it is sent. */
    function CommandGate(index: nat, command: Management): Code
      reads this
      requires index < |motors| && index < |slots|
    {
      var s := slots[index].state;
      if link.mode == Closed || link.passive || (link.mode == Fault && command != Disable) then InvalidCommand
      else if !motors[index].modeConfirmed || !motors[index].mappingConfirmed then InvalidConfiguration
      else if command == Enable && motors[index].mode != PositionVelocity then Unsupported
      else if command != Disable
              && (link.mode != Maintenance || !s.valid || link.now - s.receivedAt > link.feedbackTimeout
                || s.status == 1
                  || (command == Enable && s.status != 0))
      then InvalidCommand
      else Ok
    }

    /**
     Sends a command and takes its effect as confirmed only by a state query; once sent, anything else is a fault.
     `gated` is the bus at the moment of the check.
     */
    method CommandUnlocked(index: nat, command: Management, deadline: int) returns (code: Code, ghost gated: Bus)
      requires Valid() && (command == Disable ==> link.mode != Control)
      modifies this
      ensures Valid() && Steady(old(View()), View()) && motors == old(motors) && world.device == old(world).device
      ensures code == Ok && command != SaveZero ==>
                index < |slots| && slots[index].state.valid
                  && slots[index].state.status == if command == Enable then 1 else 0
      ensures code == Ok && command == SaveZero ==> index < |slots| && !slots[index].state.valid
      ensures code == Ok ==> old(link).now <= slots[index].state.receivedAt
      ensures code != Ok ==> link.mode == Fault || world.wire == old(world).wire
      ensures if index < |motors| then CommandOnWire(old(world).wire, world.wire, motors[index], command)
              else world.wire == old(world).wire
      ensures code == Ok ==> |world.wire| == |old(world).wire| + 2
      ensures world.wire != old(world).wire ==> Undisturbed(old(View()), gated) && MayCommand(gated, index, command)
      ensures old(link).mode == Fault ==> link.mode == Fault
    {
      hide Sound;
      hide Moved;
      hide Undisturbed;
      ghost var start := View();
      gated := start;
      SoundSizes(start);
      if index >= |motors| {
        return InvalidConfiguration, gated;
      }
      hide CommandOnWire;
      NoCommandOnWire(world.wire, motors[index], command);
      Unlocked();
      UndisturbedKeeps(start, View());
      gated := View();
      code := CommandGate(index, command);
      if code != Ok {
        return;
      }
      assert MayCommand(gated, index, command);
      hide MayCommand;
      var encoded := EncodeManagement(motors[index].address.esc, motors[index].mode, command);
      if encoded.Failure? {
        return encoded.code, gated;
      }
      hide EncodeManagement;
      if link.now >= deadline {
        return Timeout, gated;
      }
      code := SendAndConfirm(index, command, encoded.value, deadline);
      SteadyOnward(start, gated, View());
    }

    /** The part of a command from the moment its frame goes out. */
    method SendAndConfirm(index: nat, command: Management, frame: CanFrame, deadline: int) returns (code: Code)
      requires Valid() && index < |motors| && link.mode !in {Closed, Control}
      requires EncodeManagement(motors[index].address.esc, motors[index].mode, command) == Success(frame)
      modifies this
      ensures Valid() && Steady(old(View()), View()) && motors == old(motors) && world.device == old(world).device
      ensures code == Ok && command != SaveZero ==>
                index < |slots| && slots[index].state.valid
                  && slots[index].state.status == if command == Enable then 1 else 0
      ensures code == Ok && command == SaveZero ==> index < |slots| && !slots[index].state.valid
      ensures code == Ok ==> old(link).now <= slots[index].state.receivedAt
      ensures code != Ok ==> link.mode == Fault
      ensures CommandOnWire(old(world).wire, world.wire, motors[index], command)
      ensures code == Ok ==> |world.wire| == |old(world).wire| + 2
    {
      hide Sound;
      hide Moved;
      hide Undisturbed;
      hide EncodeManagement;
      hide CommandOnWire;
      hide QueryOnWire;
      ghost var start := View();
      code := SendCommand(frame);
      ghost var out := View();
      SteadyOnward(start, start, out) by { SteadyItself(start); }
      QuietOnWire(out.world.wire, motors[index].address.esc);
      if code == Ok {
        code := ConfirmCommand(index, command, deadline);
        SteadyOnward(start, out, View());
      }
      CommandThenQuery(start.world.wire, frame, world.wire, motors[index], command);
    }

    /** Hands one command to the transport, which may refuse it. */
    method SendCommand(frame: CanFrame) returns (code: Code)
      requires Valid() && link.mode !in {Closed, Control}
      modifies this`slots, this`link, this`world
      ensures Valid() && Steady(old(View()), View()) && |slots| == old(|slots|) && world.device == old(world).device
      ensures link.mode !in {Closed, Control} && (code != Ok ==> link.mode == Fault)
      ensures world.wire == old(world).wire + [frame]
    {
      hide Sound;
      hide Moved;
      hide Undisturbed;
      ghost var start := View();
      Unlocked();
      ghost var ready := View();
      UndisturbedKeeps(start, ready);
      code := *;
      TransmittedKeepsSound(ready, frame);
      world := world.(wire := world.wire + [frame]);
      ghost var out := View();
      assert out == ready.Transmitted(frame);
      Unlocked();
      UndisturbedKeeps(out, View());
      if code != Ok {
        LatchedKeepsSound(View());
        link := link.Faulted();
      }
    }

    method ConfirmCommand(index: nat, command: Management, deadline: int) returns (code: Code)
      requires Valid() && index < |motors| && link.mode !in {Closed, Control}
      modifies this
      ensures Valid() && Steady(old(View()), View()) && motors == old(motors) && world.device == old(world).device
      ensures code == Ok && command != SaveZero ==>
                index < |slots| && slots[index].state.valid
                  && slots[index].state.status == if command == Enable then 1 else 0
      ensures code == Ok && command == SaveZero ==> index < |slots| && !slots[index].state.valid
      ensures code == Ok ==> old(link).now <= slots[index].state.receivedAt
      ensures code != Ok ==> link.mode == Fault
      ensures QueryOnWire(old(world).wire, world.wire, motors[index].address.esc)
      ensures code == Ok ==> |world.wire| == |old(world).wire| + 1
    {
      hide Sound;
      ghost var start := View();
      SoundSizes(start);
      hide QueryOnWire;
      hide Undisturbed;
      hide Moved;
      var state;
      code, state := QueryUnlocked(index, deadline);
      ghost var queried := View();
      UndisturbedKeeps(start, queried);
      if code == Ok && state.value.status == if command == Enable then 1 else 0 {
        if command == SaveZero {
          Unlocked();
          UndisturbedKeeps(queried, View());
          code := ConfirmZero(index, state.value.position);
        }
      } else {
        code := FailCommand(index, code);
        SteadyOnward(start, queried, View());
      }
    }

    /** A command without an answer, or with the wrong one, is a fault. */
    method FailCommand(index: nat, answer: Code) returns (code: Code)
      requires Valid() && index < |motors| && link.mode !in {Closed, Control}
      modifies this`slots, this`link, this`world
      ensures Valid() && Steady(old(View()), View())
      ensures world.device == old(world).device && world.wire == old(world).wire
      ensures link.mode == Fault && code == if answer == Ok then MotorFault else answer
    {
      hide Sound;
      hide Moved;
      hide Undisturbed;
      ghost var start := View();
      Unlocked();
      SoundSizes(View());
      UndisturbedKeeps(start, View());
      if answer == Ok {
        LatchedKeepsSound(View());
        link := link.Faulted();
        return MotorFault;
      }
      FailUnsampled(index);
      return answer;
    }

    /** A command without an answer leaves no sample to rely on. */
    method FailUnsampled(index: nat)
      requires Valid() && index < |motors| && |slots| == |motors| && link.mode !in {Closed, Control}
      modifies this`slots, this`link
      ensures Valid() && View() == old(View()).Unsampled(index).Latched()
    {
      ghost var start := View();
      InvalidatedKeepsSound(start, index);
      LatchedKeepsSound(start.Unsampled(index));
      hide Sound;
      slots := slots[index := slots[index].(state := slots[index].state.(valid := false))];
      link := link.Faulted();
    }

    /** After saving the zero, the position must be within two steps of it; the sample itself no longer counts. */
    method ConfirmZero(index: nat, position: real) returns (code: Code)
      requires Valid() && index < |motors| && |slots| == |motors| && link.mode !in {Closed, Control}
      modifies this`slots, this`link
      ensures Valid() && View() == if code == Ok then old(View()).Invalidated(index)
        else old(View()).Invalidated(index).Latched()
      ensures motors[index].mapping.position.Finite? ==>
                (code == Ok <==> Abs(position) <= 2.0 * motors[index].mapping.position.value / 65535.0)
    {
      ghost var start := View();
      InvalidatedKeepsSound(start, index);
      LatchedKeepsSound(start.Invalidated(index));
      hide Sound;
      var limit := if motors[index].mapping.position.Finite? then motors[index].mapping.position.value else 0.0;
      slots := slots[index := slots[index].Invalidated(link.now)];
      if Abs(position) > 2.0 * limit / 65535.0 {
        link := link.Faulted();
        return AmbiguousReply;
      }
      return Ok;
    }

    /** An explicit disable first withdraws the leave to move. */
    method DisableMotor(index: nat, deadline: int) returns (code: Code)
      requires Valid() && !link.closing
      modifies this
      ensures Valid() && link.mode != Control && !link.closing && motors == old(motors)
      ensures code == Ok ==> index < |slots| && slots[index].state.valid && slots[index].state.status == 0
      ensures old(link).mode == Fault ==> link.mode == Fault
      ensures if index < |motors| then CommandOnWire(old(world).wire, world.wire, motors[index], Disable)
              else world.wire == old(world).wire
      ensures code == Ok ==> |world.wire| == |old(world).wire| + 2
    {
      ghost var start := View();
      DemotedKeepsSound(start);
      hide Sound;
      hide CommandOnWire;
      hide MayCommand;
      if link.mode == Control {
        link := link.(mode := Maintenance);
      }
      ghost var gated;
      code, gated := CommandUnlocked(index, Disable, deadline);
    }

    // ----- Control -----

    /** The only way out of a fault but closing: everything cached is withdrawn. */
    method RecoverMaintenance() returns (code: Code)
      requires Valid()
      modifies this`slots, this`link
      ensures Valid()
      ensures code == Ok <==> old(link).mode in {Maintenance, Fault} && !old(link).stop
      ensures View() == if code == Ok then old(View()).Recovered() else old(View())
      ensures code == Ok ==>
        && link == old(link).(pending := NoPending, mode := Maintenance) && |slots| == old(|slots|)
        && forall i | 0 <= i < |slots| ::
          && !slots[i].state.valid && slots[i].revision == old(slots)[i].revision + 1 && slots[i].validAfter == link.now
    {
      ghost var start := View();
      hide Sound;
      if link.mode == Closed || link.stop {
        return Disconnected;
      }
      if link.mode == Control {
        return InvalidCommand;
      }
      RecoveredKeepsSound(start);
      var stale := slots;
      link := link.(pending := NoPending);
      for i := 0 to |slots|
        invariant |slots| == |stale| && link == start.link.(pending := NoPending)
        invariant forall k | 0 <= k < i :: slots[k] == stale[k].Invalidated(link.now)
        invariant forall k | i <= k < |slots| :: slots[k] == stale[k]
      {
        slots := slots[i := slots[i].Invalidated(link.now)];
      }
      link := link.(mode := Maintenance);
      assert forall k | 0 <= k < |slots| :: slots[k] == start.Recovered().slots[k];
      assert slots == start.Recovered().slots;
      assert View() == start.Recovered();
      return Ok;
    }

    /** Opens control exactly when every motor is enabled, fresh, synchronised, in position mode and within limits. */
    method BeginControl() returns (code: Code)
      requires Valid() && !link.closing
      modifies this`link
      ensures Valid() && !link.closing
      ensures code == Ok <==>
        old(link).mode == Maintenance && !old(link).passive && forall i | 0 <= i < |motors| && i < |slots| ::
          old(MayControl(View(), i))
      ensures View() == if code == Ok then old(View()).Promoted() else old(View())
      ensures link == if code == Ok then old(link).(mode := Control) else old(link)
      ensures code == Ok ==> |slots| == |motors| && forall i | 0 <= i < |motors| ::
        && motors[i].Ready() && slots[i].Current() && slots[i].state.valid && slots[i].state.status == 1
        && motors[i].Allows(slots[i].state.position)
        && 0 <= link.now - slots[i].state.receivedAt <= link.feedbackTimeout
      ensures old(link).mode == Fault ==> link.mode == Fault
    {
      hide Sound;
      ghost var start := View();
      SoundSizes(start);
      if link.mode != Maintenance || link.passive {
        return InvalidCommand;
      }
      for i := 0 to |motors|
        invariant forall k | 0 <= k < i :: MayControl(View(), k)
      {
        code := link.FeedbackCode(slots[i]);
        if !(code == Ok && slots[i].state.status == 1 && motors[i].Ready()
           && motors[i].Allows(slots[i].state.position)) {
          assert !MayControl(View(), i);
          return if code == Ok then InvalidConfiguration else code;
        }
      }
      PromotedKeepsSound(start);
      forall i | 0 <= i < |motors|
        ensures motors[i].Ready() && slots[i].Current() && slots[i].state.valid && slots[i].state.status == 1
        ensures motors[i].Allows(slots[i].state.position)
        ensures 0 <= link.now - slots[i].state.receivedAt <= link.feedbackTimeout
      {
        MayControlIff(start, i);
      }
      hide MayControl;
      hide Link.FeedbackCode;
      hide Slot.Current;
      link := link.(mode := Control);
      assert View() == start.Promoted();
      return Ok;
    }

    method EndControl() returns (code: Code)
      requires Valid() && !link.closing
      modifies this`link
      ensures Valid() && !link.closing && View() == old(View()).Demoted()
      ensures link == if old(link).mode == Control then old(link).(mode := Maintenance) else old(link)
      ensures code == if link.mode == Fault then BusError else Ok
      ensures old(link).mode == Fault ==> link.mode == Fault
    {
      DemotedKeepsSound(View());
      hide Sound;
      if link.mode == Control {
        link := link.(mode := Maintenance);
      }
      return if link.mode == Fault then BusError else Ok;
    }

    /**
     Checks everything before it sends anything; then sends in motor order until the first failure, which is a
     fault.
     */
    method SendBatch(commands: seq<PositionCommand>) returns (code: Code, results: seq<Code>, attempts: nat)
      requires Valid() && !link.closing
      modifies this`slots, this`link, this`world
      ensures Valid() && !link.closing && motors == old(motors) && |results| == |commands| && attempts <= |commands|
      ensures (code == Ok ==> attempts == |commands|) && (attempts == 0 ==> code != Ok)
      ensures attempts == 0 ==>
        View() == if code in {StaleFeedback, MotorFault} then old(View()).Latched() else old(View())
      ensures attempts == 0 ==>
        forall i, j | 0 <= i < j < |results| :: results[i] == NotExecuted || results[j] == NotExecuted
      ensures old(link).mode == Fault ==> attempts == 0 && link.mode == Fault
      ensures |old(slots)| == |motors|
      ensures attempts > 0 <==>
        && old(link).mode == Control && 0 < |commands| == |motors|
        && forall i | 0 <= i < |commands| :: CommandCode(old(link), old(slots)[i], motors[i], commands[i]) == Ok
      ensures attempts > 0 ==> Batched(old(View()), View(), commands, attempts, results, code)
    {
      SoundSizes(View());
      hide Sound;
      hide CommandCode;
      hide Batched;
      hide Bus.Latched;
      code, results := AdmitBatch(commands);
      attempts := 0;
      if code == Ok {
        code, results, attempts := TransmitBatch(commands);
      }
    }

    /** All checks of a batch; stale or faulty feedback latches the fault. */
    method AdmitBatch(commands: seq<PositionCommand>) returns (code: Code, results: seq<Code>)
      requires Valid() && !link.closing
      modifies this`link
      ensures Valid() && !link.closing && |results| == |commands|
      ensures View() == if code in {StaleFeedback, MotorFault} then old(View()).Latched() else old(View())
      ensures code == Ok <==>
        && old(link).mode == Control && 0 < |commands| == |motors| == |slots|
        && forall i | 0 <= i < |commands| :: CommandCode(old(link), slots[i], motors[i], commands[i]) == Ok
      ensures forall i, j | 0 <= i < j < |results| :: results[i] == NotExecuted || results[j] == NotExecuted
      ensures old(link).mode == Fault ==> link.mode == Fault
    {
      hide Sound;
      ghost var start := View();
      TablesFit(start);
      SoundSizes(start);
      hide CommandCode;
      results := seq(|commands|, i => NotExecuted);
      if |commands| == 0 || |commands| > MaxMotors || link.mode != Control || |commands| != |motors| {
        return InvalidCommand, results;
      }
      var failing;
      code, failing := CheckBatch(commands);
      if code != Ok {
        results := results[failing := code];
        if code == StaleFeedback || code == MotorFault {
          LatchedKeepsSound(start);
          link := link.Faulted();
        }
      }
    }

    method CheckBatch(commands: seq<PositionCommand>) returns (code: Code, failing: nat)
      requires Valid() && 0 < |commands| && |commands| == |motors| == |slots|
      ensures code == Ok <==> forall i | 0 <= i < |commands| ::
        CommandCode(link, slots[i], motors[i], commands[i]) == Ok
      ensures code != Ok ==>
        failing < |commands|
        && code == CommandCode(link, slots[failing], motors[failing], commands[failing])
      ensures code != Ok ==> forall i | 0 <= i < failing :: CommandCode(link, slots[i], motors[i], commands[i]) == Ok
    {
      hide Sound;
      hide CommandCode;
      failing := 0;
      for i := 0 to |commands|
        invariant forall k | 0 <= k < i :: CommandCode(link, slots[k], motors[k], commands[k]) == Ok
      {
        code := CommandCode(link, slots[i], motors[i], commands[i]);
        if code != Ok {
          return code, i;
        }
      }
      return Ok, 0;
    }

    /** One frame of a batch; before it the receiver may have acted. */
    method TransmitOne(frame: CanFrame) returns (sent: Code)
      requires Valid() && link.mode != Closed
      modifies this`slots, this`link, this`world
      ensures Valid() && world.wire == old(world).wire + [frame] && link.mode != Closed
        && link.closing == old(link).closing
    {
      hide Sound;
      hide Moved;
      hide Undisturbed;
      Unlocked();
      TransmittedKeepsSound(View(), frame);
      world := world.(wire := world.wire + [frame]);
      Unlocked();
      sent := *;
    }

    method TransmitBatch(commands: seq<PositionCommand>) returns (code: Code, results: seq<Code>, attempts: nat)
      requires Valid() && link.mode == Control && 0 < |commands| && |commands| == |motors| == |slots|
      requires forall i | 0 <= i < |commands| :: CommandCode(link, slots[i], motors[i], commands[i]) == Ok
      modifies this`slots, this`link, this`world
      ensures Valid() && motors == old(motors) && |results| == |commands| && 0 < attempts <= |commands|
      ensures link.closing == old(link).closing
      ensures Batched(old(View()), View(), commands, attempts, results, code) && (code == Ok ==> attempts == |commands|)
    {
      hide Sound;
      hide Moved;
      hide CommandCode;
      hide FrameFor;
      ghost var start := View();
      assert world.wire == start.world.wire + BatchFrames(motors, commands, 0);
      hide BatchFrames;
      hide Batched;
      code, attempts := Ok, 0;
      results := seq(|commands|, i => NotExecuted);
      while attempts < |commands|
        invariant attempts <= |commands| && |results| == |commands| && Valid() && motors == start.motors
        invariant link.mode != Closed && link.closing == start.link.closing
        invariant world.wire == start.world.wire + BatchFrames(motors, commands, attempts)
        invariant forall i | 0 <= i < attempts :: results[i] == Ok
        invariant forall i | attempts <= i < |results| :: results[i] == NotExecuted
      {
        NextFrame(motors, commands, attempts, start.world.wire);
        var sent := TransmitOne(FrameFor(motors[attempts], commands[attempts]));
        results := results[attempts := sent];
        attempts := attempts + 1;
        if sent != Ok {
          LatchedKeepsSound(View());
          link := link.Faulted();
          code := if attempts == 1 then sent else PartialFailure;
          SomeWereSent(start, View(), commands, attempts, results, code);
          return;
        }
      }
      SomeWereSent(start, View(), commands, attempts, results, code);
    }

    predicate Hears(f: CanFrame)
      requires Valid()
      reads this
    {
      Truthful(motors, tables, world, f)
    }
  }

  /** What entering control demands of one motor, check by check. */
  lemma MayControlIff(b: Bus, i: nat)
    requires i < |b.motors| && i < |b.slots|
    ensures MayControl(b, i) <==>
      && b.motors[i].Ready() && b.link.mode != Closed
      && b.slots[i].state.valid && b.slots[i].Current() && b.slots[i].state.status == 1
      && b.motors[i].Allows(b.slots[i].state.position)
      && 0 <= b.link.now - b.slots[i].state.receivedAt <= b.link.feedbackTimeout
  {
    FeedbackCodeIff(b.link, b.slots[i]);
  }

  lemma SoundIsAddressed(b: Bus)
    requires Sound(b)
    ensures Addressed(b.motors, b.tables) && |b.slots| == |b.motors| && |b.world.device| == |b.motors|
  {
  }

  lemma TimePasses(a: Bus, b: Bus)
    requires Moved(a, b)
    ensures a.link.now <= b.link.now
  {
  }

  lemma MovedSteady(a: Bus, b: Bus)
    requires Moved(a, b)
    ensures Steady(a, b) && b.motors == a.motors && SlotsMoved(a.slots, b.slots)
      && SameTransaction(a.link.pending, b.link.pending)
    ensures b.world.device == a.world.device && b.world.asked == a.world.asked && b.world.wire == a.world.wire
    ensures a.link.mode == Closed ==> b.link.mode == Closed
  {
  }

  lemma AnswerIsReported(b: Bus)
    requires Sound(b) && b.link.pending.active
    ensures b.link.pending.done && b.link.pending.code == Ok && b.link.pending.operation in {0x33, 0x55} ==>
      Reported(b, b.link.pending.index, b.link.pending.rid, b.link.pending.value)
  {
  }

  lemma AnswerIsSampled(b: Bus)
    requires Sound(b) && b.link.pending.active && b.link.pending.done && b.link.pending.code == Ok
    requires b.link.pending.operation == 0xCC
    ensures b.link.pending.index < |b.slots|
      && b.link.pending.sentAt <= b.slots[b.link.pending.index].state.receivedAt
  {
  }

  lemma MovedIsQuiet(a: Bus, b: Bus)
    requires Moved(a, b)
    ensures Quiet(a, b)
  {
  }

  lemma MovedIsUndisturbed(a: Bus, b: Bus)
    requires Moved(a, b)
    ensures Undisturbed(a, b)
  {
  }

  lemma ReportedMoves(a: Bus, b: Bus, index: nat, rid: Byte, value: Option<RegisterValue>)
    requires Undisturbed(a, b) && Reported(a, index, rid, value)
    ensures Reported(b, index, rid, value)
  {
  }

  lemma QuietKeepsMotors(a: Bus, b: Bus)
    requires Quiet(a, b)
    ensures b.motors == a.motors && |b.world.device| == |a.world.device| && a.link.now <= b.link.now
  {
  }

  lemma QuietIsTransacted(a: Bus, b: Bus, request: CanFrame, index: nat, operation: Byte, rid: Byte)
    requires Quiet(a, b)
    ensures Transacted(a, b, request, index, operation, rid, false)
  {
  }

  lemma QuietThenTransacted(a: Bus, b: Bus, c: Bus, request: CanFrame, index: nat, operation: Byte, rid: Byte,
                            sent: bool)
    requires Quiet(a, b) && Transacted(b, c, request, index, operation, rid, sent)
    ensures Transacted(a, c, request, index, operation, rid, sent)
  {
  }

  lemma DisturbedThenTransacted(a: Bus, b: Bus, c: Bus, request: CanFrame, index: nat, operation: Byte, rid: Byte,
                                sent: bool)
    requires Moved(a, b) && Transacted(b, c, request, index, operation, rid, sent)
    ensures Transacted(a, c, request, index, operation, rid, sent)
  {
  }

  lemma SendingIsTransacted(a: Bus, ready: Bus, out: Bus, request: CanFrame, sent: bool)
    requires Quiet(a, ready) && SameTransaction(a.link.pending, ready.link.pending)
      && ready.link.pending.index < |ready.world.device|
    requires if sent then exists delivered :: out == ready.Sent(request, delivered)
             else out == ready.SendFailed(request)
    ensures Transacted(a, out, request, a.link.pending.index, a.link.pending.operation, a.link.pending.rid, sent)
  {
  }

  lemma MovedFromSent(ready: Bus, out: Bus, request: CanFrame)
    requires ready.link.pending.index < |ready.world.device|
    requires exists delivered :: out == ready.Sent(request, delivered)
    ensures out.link == ready.link && out.honest == ready.honest
  {
  }

  lemma ConcludedIsQuiet(a: Bus, b: Bus, code: Code)
    requires Moved(a, b)
    ensures Quiet(a, b.Concluded(code))
  {
  }

  lemma TransactedThenQuiet(a: Bus, b: Bus, c: Bus, request: CanFrame, index: nat, operation: Byte, rid: Byte,
                            sent: bool)
    requires Transacted(a, b, request, index, operation, rid, sent) && Quiet(b, c)
    ensures Transacted(a, c, request, index, operation, rid, sent)
  {
  }

  lemma TransactedSteady(a: Bus, b: Bus, request: CanFrame, index: nat, operation: Byte, rid: Byte, sent: bool)
    requires Transacted(a, b, request, index, operation, rid, sent)
    ensures Steady(a, b) && b.motors == a.motors && |b.world.device| == |a.world.device|
  {
  }

  lemma ReportedStays(b: Bus, code: Code, index: nat, rid: Byte, value: Option<RegisterValue>)
    ensures Reported(b, index, rid, value) == Reported(b.Concluded(code), index, rid, value)
  {
  }

  lemma ReadIsUndisturbed(a: Bus, b: Bus, request: CanFrame, index: nat, rid: Byte, sent: bool, esc: nat)
    requires Transacted(a, b, request, index, 0x33, rid, sent) && EncodeRead(esc, rid) == Success(request)
    ensures Undisturbed(a, b) && ReadOnWire(a.world.wire, b.world.wire, esc, rid)
    ensures sent ==> |b.world.wire| == |a.world.wire| + 1
  {
    RequestFrames(esc, rid, Word(0));
    hide EncodeRead;
    hide IsRequest;
  }

  lemma NothingSynchronized(wire: seq<CanFrame>, esc: nat)
    ensures ReadsOnWire(wire, wire, esc)
  {
  }

  lemma ReadsOnward(a: seq<CanFrame>, b: seq<CanFrame>, c: seq<CanFrame>, esc: nat, n: nat)
    requires ReadsOnWire(a, b, esc) && n < |Synchronized| && |b| == |a| + n
    requires ReadOnWire(b, c, esc, Synchronized[n])
    ensures ReadsOnWire(a, c, esc)
  {
    hide IsRequest;
    forall k | |a| <= k < |c|
      ensures IsRequest(c[k], esc, 0x33, Synchronized[k - |a|], 4, 0)
    {
      if k < |b| { assert c[k] == b[k]; } else { assert k - |a| == n; }
    }
  }

  lemma NoLimits(wire: seq<CanFrame>, esc: nat, limits: Mapping)
    requires limits.Valid()
    ensures LimitsOnWire(wire, wire, esc, limits)
  {
  }

  lemma LimitsOnward(a: seq<CanFrame>, b: seq<CanFrame>, c: seq<CanFrame>, esc: nat, limits: Mapping, n: nat)
    requires limits.Valid() && LimitsOnWire(a, b, esc, limits) && n < 3 && |b| == |a| + 3 * n
    requires WriteOnWire(b, c, esc, LimitRegister(n), LimitWord(limits, n))
    ensures LimitsOnWire(a, c, esc, limits)
  {
    hide IsRequest;
    hide LimitWord;
    hide LimitRegister;
    forall k | |a| <= k < |c|
      ensures if (k - |a|) % 3 == 1
              then IsRequest(c[k], esc, 0x55, LimitRegister((k - |a|) / 3), 8, LimitWord(limits, (k - |a|) / 3))
              else IsRequest(c[k], esc, 0x33, LimitRegister((k - |a|) / 3), 4, 0)
    {
      if k < |b| {
        assert c[k] == b[k];
      } else {
        var i := k - |b|;
        assert k - |a| == 3 * n + i && 0 <= i < 3;
        assert (k - |a|) / 3 == n && (k - |a|) % 3 == i;
      }
    }
  }

  lemma NothingRead(wire: seq<CanFrame>, esc: nat, rid: Byte)
    ensures ReadOnWire(wire, wire, esc, rid)
  {
  }

  lemma UndisturbedKeeps(a: Bus, b: Bus)
    requires Undisturbed(a, b)
    ensures Steady(a, b) && b.motors == a.motors && |b.slots| == |a.slots| && b.world.device == a.world.device
    ensures b.link.mode == a.link.mode || b.link.mode == Fault
  {
  }

  lemma SamplesGetNewer(a: Bus, b: Bus)
    requires Undisturbed(a, b)
    ensures |b.slots| == |a.slots| && a.link.now <= b.link.now
    ensures forall i | 0 <= i < |a.slots| :: a.slots[i].state.receivedAt <= b.slots[i].state.receivedAt
  {
  }

  lemma EncodedIsValid(esc: nat, rid: Byte, value: RegisterValue, request: CanFrame)
    requires EncodeWrite(esc, rid, value) == Success(request)
    ensures ValidateWrite(rid, value) == Ok && Load(request.data[4..]) == RawBits(value)
  {
    hide ValidateWrite;
    hide Load;
    hide LittleEndian;
    assert request.data[4..] == LittleEndian(RawBits(value));
    LoadUndoesStore(RawBits(value));
  }

  lemma WrittenKeeps(a: Bus, doubted: Bus, b: Bus, request: CanFrame, index: nat, rid: Byte, sent: bool)
    requires index < |a.motors| && |a.slots| == |a.motors| && |a.world.device| == |a.motors|
    requires doubted == a.Doubted(index, rid == 0x0A, 0x15 <= rid <= 0x17)
    requires Transacted(doubted, b, request, index, 0x55, rid, sent)
    ensures WriteDone(a, b, index, rid) && OthersKept(a.motors, b.motors, index)
  {
  }

  lemma ReadKeeps(a: Bus, b: Bus, c: Bus, index: nat, rid: Byte)
    requires WriteDone(a, b, index, rid) && Undisturbed(b, c) && OthersKept(a.motors, b.motors, index)
    ensures WriteDone(a, c, index, rid) && OthersKept(a.motors, c.motors, index) && c.motors == b.motors
  {
  }

  /**
   A value that reads back as requested has the request's word: legal values of the registers in question are not
   zero.
   */
  lemma SameWord(rid: Byte, value: RegisterValue, readback: RegisterValue)
    requires SameValue(readback, value) && ValidateWrite(rid, value) == Ok && rid in {0x0A, 0x15, 0x16, 0x17}
    ensures RawBits(readback) == RawBits(value)
    ensures rid == 0x0A ==> value.Word? && 1 <= value.word <= 4
    ensures rid != 0x0A ==>
      value.Float? && IsFinite(value.bits) && 0.0 < Value(value.bits)
      && ToBits(Value(value.bits)) == value.bits
  {
    if rid != 0x0A {
      if Magnitude(value.bits) == 0 { ZeroValue(value.bits); }
      hide ToBits;
      hide Value;
      ValueKeepsBits(value.bits) by { if value.bits == SignBit { NegativeZero(); } }
    }
  }

  lemma ZeroValue(b: Bits)
    requires Magnitude(b) == 0
    ensures Value(b) == 0.0
  {
  }

  lemma AppliedAgrees(config: MotorConfig, m: MotorConfig, before: Registers, after: Registers, rid: Byte,
                      value: RegisterValue, readback: RegisterValue)
    requires ModeAgrees(config, before) && MappingAgrees(config, before)
    requires m == config.(modeConfirmed := config.modeConfirmed && rid != 0x0A,
                          mappingConfirmed := config.mappingConfirmed && !(0x15 <= rid <= 0x17))
    requires forall r: Byte | r != rid :: Content(after, r) == Content(before, r)
    requires Holds(after, rid, readback) && SameValue(readback, value) && ValidateWrite(rid, value) == Ok
    ensures ModeAgrees(Applied(config, m, rid, value), after) && MappingAgrees(Applied(config, m, rid, value), after)
  {
    if rid in {0x0A, 0x15, 0x16, 0x17} { SameWord(rid, value, readback); }
    hide ToBits;
    hide Value;
    hide SameValue;
    hide ValidateWrite;
    hide RegisterInfo;
    hide Content;
  }

  lemma AppliedIsBorneOut(a: Bus, b: Bus, index: nat, rid: Byte, value: RegisterValue, readback: Option<RegisterValue>)
    requires Sound(a) && a.link.mode !in {Closed, Control} && WriteDone(a, b, index, rid)
      && |b.world.device| == |b.motors|
    requires Reported(b, index, rid, readback) && SameValue(readback.value, value) && ValidateWrite(rid, value) == Ok
    ensures b.honest && b.link.mode != Closed && !b.link.passive ==>
      && ModeAgrees(Applied(a.motors[index], b.motors[index], rid, value), b.world.device[index])
      && MappingAgrees(Applied(a.motors[index], b.motors[index], rid, value), b.world.device[index])
  {
    hide Applied;
    hide Holds;
    hide SameValue;
    hide ValidateWrite;
    hide ModeAgrees;
    hide MappingAgrees;
    hide Addressed;
    hide Cached;
    hide Controlled;
    if b.honest && b.link.mode != Closed && !b.link.passive {
      AppliedAgrees(a.motors[index], b.motors[index], a.world.device[index], b.world.device[index], rid, value,
        readback.value);
    }
  }

  lemma AppliedIsVerified(b: Bus, index: nat, rid: Byte, value: RegisterValue, readback: Option<RegisterValue>,
                          config: MotorConfig)
    requires index < |b.motors| && index < |b.slots|
    requires Reported(b, index, rid, readback) && SameValue(readback.value, value) && ValidateWrite(rid, value) == Ok
    ensures WriteVerified(b.Committed(index, Applied(config, b.motors[index], rid, value)), index, rid, value, readback)
  {
  }

  lemma AppliedKeepsOthers(a: Bus, b: Bus, index: nat, rid: Byte, m: MotorConfig)
    requires WriteDone(a, b, index, rid) && index < |b.slots| && SameRegistration(a.motors[index], m)
    ensures var c := b.Committed(index, m);
      Steady(a, c) && OthersKept(a.motors, c.motors, index)
      && DeviceKept(a.world, c.world, index, rid)
  {
  }

  lemma TransactedWire(a: Bus, b: Bus, request: CanFrame, index: nat, operation: Byte, rid: Byte, sent: bool)
    requires Transacted(a, b, request, index, operation, rid, sent)
    ensures if sent then b.world.wire == a.world.wire + [request]
            else b.world.wire in {a.world.wire, a.world.wire + [request]}
  {
  }

  /** The part of a write after the old value was read: the write itself, and its read-back. */
  predicate WrittenOnWire(a: seq<CanFrame>, b: seq<CanFrame>, esc: nat, rid: Byte, word: Bits) {
    && a <= b && |b| <= |a| + 2
    && (|b| > |a| ==> IsRequest(b[|a|], esc, 0x55, rid, 8, word))
    && (|b| > |a| + 1 ==> IsRequest(b[|a| + 1], esc, 0x33, rid, 4, 0))
  }

  lemma NoneWritten(wire: seq<CanFrame>, esc: nat, rid: Byte, word: Bits)
    ensures WrittenOnWire(wire, wire, esc, rid, word)
  {
  }

  lemma SentOnWire(a: seq<CanFrame>, b: seq<CanFrame>, request: CanFrame, esc: nat, rid: Byte, value: RegisterValue)
    requires EncodeWrite(esc, rid, value) == Success(request) && b in {a, a + [request]}
    ensures WrittenOnWire(a, b, esc, rid, RawBits(value))
  {
    RequestFrames(esc, rid, value) by { EncodedIsValid(esc, rid, value, request); }
    hide EncodeWrite;
    hide IsRequest;
  }

  lemma VerifiedOnWire(a: seq<CanFrame>, request: CanFrame, b: seq<CanFrame>, esc: nat, rid: Byte,
                       value: RegisterValue)
    requires EncodeWrite(esc, rid, value) == Success(request) && ReadOnWire(a + [request], b, esc, rid)
    ensures WrittenOnWire(a, b, esc, rid, RawBits(value))
  {
    RequestFrames(esc, rid, value) by { EncodedIsValid(esc, rid, value, request); }
    hide EncodeWrite;
    hide IsRequest;
  }

  lemma NothingWritten(wire: seq<CanFrame>, esc: nat, rid: Byte, word: Bits)
    ensures WriteOnWire(wire, wire, esc, rid, word)
  {
  }

  lemma ReadOfWrite(a: seq<CanFrame>, b: seq<CanFrame>, esc: nat, rid: Byte, word: Bits)
    requires ReadOnWire(a, b, esc, rid)
    ensures WriteOnWire(a, b, esc, rid, word)
  {
  }

  lemma RestOfWrite(a: seq<CanFrame>, b: seq<CanFrame>, c: seq<CanFrame>, esc: nat, rid: Byte, word: Bits)
    requires ReadOnWire(a, b, esc, rid) && |b| == |a| + 1 && WrittenOnWire(b, c, esc, rid, word)
    ensures WriteOnWire(a, c, esc, rid, word)
  {
    hide IsRequest;
  }

  lemma AddressKept(a: seq<MotorConfig>, b: seq<MotorConfig>, index: nat)
    requires OthersKept(a, b, index) && index < |a|
    ensures index < |b| && b[index].address == a[index].address
  {
  }

  lemma WriteDoneGives(a: Bus, b: Bus, index: nat, rid: Byte)
    requires WriteDone(a, b, index, rid)
    ensures Steady(a, b) && DeviceKept(a.world, b.world, index, rid) && |b.motors| == |a.motors|
    ensures b.link.mode == a.link.mode || b.link.mode == Fault
  {
  }

  lemma DoubtedIsUnvouched(b: Bus, index: nat, rid: Byte)
    requires index < |b.motors| && index < |b.slots|
    ensures var c := b.Doubted(index, rid == 0x0A, 0x15 <= rid <= 0x17);
      |c.motors| == |b.motors| && Unvouched(c.motors[index], rid) && c.link == b.link && c.honest == b.honest
  {
  }

  lemma ReportedTyped(b: Bus, index: nat, rid: Byte, value: Option<RegisterValue>)
    requires Reported(b, index, rid, value)
    ensures value.Some? && RegisterInfo(rid).Some?
  {
  }

  lemma KeptItself(b: Bus, index: nat, rid: Byte)
    ensures Steady(b, b) && OthersKept(b.motors, b.motors, index) && DeviceKept(b.world, b.world, index, rid)
  {
  }

  lemma UnchangedKeeps(a: Bus, b: Bus, index: nat, rid: Byte)
    requires Undisturbed(a, b)
    ensures Steady(a, b) && OthersKept(a.motors, b.motors, index) && DeviceKept(a.world, b.world, index, rid)
    ensures b.motors == a.motors && b.world.device == a.world.device
      && (b.link.mode == a.link.mode || b.link.mode == Fault)
  {
  }

  lemma SteadyItself(b: Bus)
    ensures Steady(b, b)
  {
  }

  lemma SteadyOnward(a: Bus, b: Bus, c: Bus)
    requires Steady(a, b) && Steady(b, c)
    ensures Steady(a, c)
  {
  }

  lemma SameDeviceKept(a: World, b: World, c: World, index: nat, rid: Byte)
    requires b.device == a.device && (c == b || DeviceKept(b, c, index, rid))
    ensures DeviceKept(a, c, index, rid)
  {
  }

  lemma SameDeviceAfter(a: World, b: World, c: World, index: nat, rid: Byte)
    requires DeviceKept(a, b, index, rid) && c.device == b.device
    ensures DeviceKept(a, c, index, rid)
  {
  }

  lemma EncodeFailsWithCode(esc: nat, rid: Byte, value: RegisterValue)
    ensures EncodeWrite(esc, rid, value).Failure? ==> EncodeWrite(esc, rid, value).code != Ok
  {
  }

  lemma SoundSizes(b: Bus)
    requires Sound(b)
    ensures |b.slots| == |b.motors| && |b.world.device| == |b.motors|
  {
  }

  lemma UndisturbedItself(b: Bus)
    ensures Undisturbed(b, b)
  {
  }

  lemma UndisturbedOnward(a: Bus, b: Bus, c: Bus)
    requires Undisturbed(a, b) && Undisturbed(b, c)
    ensures Undisturbed(a, c)
  {
  }

  lemma ReportedKept(b: Bus, c: Bus, index: nat, values: seq<RegisterValue>)
    requires Undisturbed(b, c) && |values| <= |Synchronized|
    requires forall k | 0 <= k < |values| :: Reported(b, index, Synchronized[k], Some(values[k]))
    ensures forall k | 0 <= k < |values| :: Reported(c, index, Synchronized[k], Some(values[k]))
  {
  }

  /** All the registers of a synchronisation have been read. */
  predicate AllRead(b: Bus, index: nat, values: seq<RegisterValue>) {
    |values| == |Synchronized| && forall k | 0 <= k < |values| :: Reported(b, index, Synchronized[k], Some(values[k]))
  }

  lemma AllReadMoves(a: Bus, b: Bus, index: nat, values: seq<RegisterValue>)
    requires Undisturbed(a, b) && AllRead(a, index, values)
    ensures AllRead(b, index, values)
  {
    ReportedKept(a, b, index, values);
  }

  lemma ReadValuesAreTyped(b: Bus, index: nat, values: seq<RegisterValue>)
    requires AllRead(b, index, values)
    ensures values[0].Word? && values[1].Word? && values[2].Word? && values[3].Float? && values[4].Float?
      && values[5].Float?
  {
  }

  lemma PositiveKeepsBits(b: Bits)
    requires IsFinite(b) && 0.0 < Value(b)
    ensures ToBits(Value(b)) == b
  {
    if b == SignBit { NegativeZero(); }
    ValueKeepsBits(b);
  }

  lemma ReadValuesAgree(b: Bus, index: nat, values: seq<RegisterValue>, m: MotorConfig)
    requires AllRead(b, index, values) && index < |b.world.device|
    requires values[2].Word? && values[3].Float? && values[4].Float? && values[5].Float?
    requires ModeOf(values[2].word) == Some(m.mode) && m.mapping.Valid()
    requires m.mapping == Mapping(Finite(Value(values[3].bits)), Finite(Value(values[4].bits)),
      Finite(Value(values[5].bits)))
    ensures b.honest ==> ModeAgrees(m, b.world.device[index]) && MappingAgrees(m, b.world.device[index])
    ensures b.honest && values[0].Word? && values[1].Word? ==>
      Content(b.world.device[index], 0x08) == values[0].word && Content(b.world.device[index], 0x07) == values[1].word
  {
    forall k | 0 <= k < 6
      ensures Reported(b, index, Synchronized[k], Some(values[k]))
    {
    }
    assert Synchronized[0] == 0x08 && Synchronized[1] == 0x07 && Synchronized[2] == 0x0A;
    assert Synchronized[3] == 0x15 && Synchronized[4] == 0x16 && Synchronized[5] == 0x17;
    hide ToBits;
    hide Value;
    hide Content;
    PositiveKeepsBits(values[3].bits);
    PositiveKeepsBits(values[4].bits);
    PositiveKeepsBits(values[5].bits);
  }

  lemma ReadMappingIsReadable(b: Bus, index: nat, values: seq<RegisterValue>, m: Mapping)
    requires AllRead(b, index, values) && values[3].Float? && values[4].Float? && values[5].Float? && m.Valid()
    requires m == Mapping(Finite(Value(values[3].bits)), Finite(Value(values[4].bits)), Finite(Value(values[5].bits)))
    ensures Readable(m)
  {
    forall k | 3 <= k < 6
      ensures Reported(b, index, Synchronized[k], Some(values[k]))
    {
    }
    hide Value;
  }

  lemma MappingDoubtedKeeps(b: Bus, index: nat)
    requires index < |b.motors|
    ensures var c := b.MappingDoubted(index); Steady(b, c) && OthersKept(b.motors, c.motors, index)
  {
  }

  lemma KeptOnward(a: Bus, b: Bus, c: Bus, index: nat)
    requires Steady(a, b) && Steady(b, c) && OthersKept(a.motors, b.motors, index)
      && OthersKept(b.motors, c.motors, index)
    ensures Steady(a, c) && OthersKept(a.motors, c.motors, index) && |c.motors| == |a.motors|
    ensures c.link.mode == b.link.mode || c.link.mode == Fault
  {
  }

  /** A verified write of a mapping limit leaves the rounded limit in an honest device. */
  lemma WrittenWord(b: Bus, index: nat, rid: Byte, x: real, readback: Option<RegisterValue>)
    requires index < |b.motors| && rid in {0x15, 0x16, 0x17} && WriteVerified(b, index, rid, Float(ToBits(x)), readback)
    ensures b.honest ==> index < |b.world.device| && Content(b.world.device[index], rid) == ToBits(x)
  {
    hide ToBits;
    SameWord(rid, Float(ToBits(x)), readback.value);
    hide SameValue;
    hide ValidateWrite;
  }

  lemma LimitsAreBorneOut(b: Bus, index: nat, limits: Mapping, m1: Bus, m2: Bus)
    requires index < |b.motors| && limits.Valid() && Sound(b)
    requires index < |m1.world.device| && DeviceKept(m1.world, m2.world, index, 0x16)
      && DeviceKept(m2.world, b.world, index, 0x17)
    requires b.honest ==> Content(m1.world.device[index], 0x15) == ToBits(limits.position.value)
    requires b.honest ==>
      index < |m2.world.device|
      && Content(m2.world.device[index], 0x16) == ToBits(limits.velocity.value)
    requires b.honest ==>
      index < |b.world.device|
      && Content(b.world.device[index], 0x17) == ToBits(limits.torque.value)
    ensures var m := b.motors[index].(mapping := limits, mappingConfirmed := true);
      && (b.honest ==> index < |b.world.device| && MappingAgrees(m, b.world.device[index]))
      && (b.honest && b.link.mode != Closed && !b.link.passive ==> ModeAgrees(m, b.world.device[index]))
  {
  }

  /**
   The published mapping is the one the device decodes and encodes with exactly when binary32 has
   all three limits; otherwise host and device differ by the rounding.
   */
  lemma PublishedLimitsAreExactIff(m: MotorConfig, r: Registers)
    requires m.mappingConfirmed && MappingAgrees(m, r)
    ensures (Value(Content(r, 0x15)) == m.mapping.position.value && IsFinite(Content(r, 0x15))
             && Value(Content(r, 0x16)) == m.mapping.velocity.value && IsFinite(Content(r, 0x16))
             && Value(Content(r, 0x17)) == m.mapping.torque.value && IsFinite(Content(r, 0x17))) <==>
      Representable(m.mapping.position.value) && Representable(m.mapping.velocity.value)
        && Representable(m.mapping.torque.value)
  {
    hide ToBits;
    hide Value;
    hide Representable;
    RoundedIffRepresentable(m.mapping.position.value);
    RoundedIffRepresentable(m.mapping.velocity.value);
    RoundedIffRepresentable(m.mapping.torque.value);
  }

  /** One tenth is not a binary32 number, so a limit of 0.1 is published as something else than the device holds. */
  lemma TenthIsNotExact()
    ensures !Representable(0.1)
  {
    hide Size;
    if Representable(0.1) {
      var b: Bits :| IsFinite(b) && Value(b) == 0.1;
      TenQuanta(b % SignBit);
    }
  }

  lemma DoubtedKeepsOthers(b: Bus, index: nat)
    requires index < |b.motors| && index < |b.slots|
    ensures var c := b.Doubted(index, true, true); Steady(b, c) && OthersKept(b.motors, c.motors, index)
  {
  }

  lemma QueryIsUndisturbed(a: Bus, b: Bus, request: CanFrame, index: nat, sent: bool, esc: nat)
    requires Transacted(a, b, request, index, 0xCC, 0, sent) && EncodeStateQuery(esc) == Success(request)
    ensures Undisturbed(a, b) && QueryOnWire(a.world.wire, b.world.wire, esc)
    ensures sent ==> |b.world.wire| == |a.world.wire| + 1
  {
    RequestFrames(esc, 0, Word(0));
    hide EncodeStateQuery;
    hide IsRequest;
  }

  lemma QuietOnWire(wire: seq<CanFrame>, esc: nat)
    ensures QueryOnWire(wire, wire, esc)
  {
  }

  lemma CommandThenQuery(wire: seq<CanFrame>, frame: CanFrame, after: seq<CanFrame>, m: MotorConfig,
                         command: Management)
    requires EncodeManagement(m.address.esc, m.mode, command) == Success(frame)
    requires QueryOnWire(wire + [frame], after, m.address.esc)
    ensures CommandOnWire(wire, after, m, command)
  {
    ManagementFrameIff(m.address.esc, m.mode, command, frame);
    hide EncodeManagement;
    hide IsManagement;
    hide IsRequest;
  }

  lemma NoCommandOnWire(wire: seq<CanFrame>, m: MotorConfig, command: Management)
    ensures CommandOnWire(wire, wire, m, command)
  {
  }

  lemma TablesFit(b: Bus)
    requires Sound(b)
    ensures |b.tables.esc| == 16 && |b.tables.mst| == 2048 && |b.motors| <= MaxMotors && |b.slots| == |b.motors|
  {
  }
}
