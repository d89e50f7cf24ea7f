/**
 The sections of `BusSteps` in any order, any number of them: whatever the operations, the receiver and the
 surroundings do, in every state of every run the bus keeps what it promises.
 */
module BusRuns {
  import opened Can
  import opened Protocol
  import opened BusState
  import opened BusSteps

  datatype Section =
    // the receiver and the surroundings
    | Hear(frame: CanFrame)
    | Wait(ticks: nat)
    | Die
    // transactions
    | Install(index: nat, operation: Byte, rid: Byte, deadline: int)
    | Send(frame: CanFrame, delivered: bool)
    | FailSend(frame: CanFrame)
    | Conclude(code: Code)
    | Transmit(frame: CanFrame)
    // configuration
    | Doubt(index: nat, mode: bool, mapping: bool)
    | DoubtMapping(index: nat)
    | Commit(index: nat, config: MotorConfig)
    | Invalidate(index: nat)
    | Unsample(index: nat)
    // the life of the bus
    | Register(config: MotorConfig, blank: MotorState, registers: Registers)
    | Open(passive: bool, feedbackTimeout: int, quietPeriod: int)
    | BeginShutDown
    | EndShutDown
    | Latch
    | Demote
    | Promote
    | Recover

  predicate AllMayControl(b: Bus)
    requires |b.slots| == |b.motors|
  {
    forall i | 0 <= i < |b.motors| :: MayControl(b, i)
  }

  /** When a section may run: what the operations check or have established before it. */
  predicate Applies(b: Bus, s: Section)
    requires Sound(b)
  {
    match s
    case Hear(f) => b.honest ==> Truthful(b.motors, b.tables, b.world, f)
    case Wait(_) => true
    case Die => b.link.mode != Closed
    case Install(_, _, _, _) => true
    case Send(_, _) =>
      && b.link.pending.index < |b.motors| && (b.honest ==> b.world.asked == None)
      && (b.link.pending.operation == 0x55 ==> Unvouched(b.motors[b.link.pending.index], b.link.pending.rid))
    case FailSend(_) => b.link.mode != Closed
    case Conclude(_) => b.link.mode != Closed
    case Transmit(_) => true
    case Doubt(i, _, _) => i < |b.motors| && b.link.mode != Control
    case DoubtMapping(i) => i < |b.motors| && b.link.mode != Control
    case Commit(i, m) =>
      && i < |b.motors| && b.link.mode != Control
      && m.address == b.motors[i].address && m.name == b.motors[i].name
      && (b.honest && b.link.mode != Closed && !b.link.passive ==>
            ModeAgrees(m, b.world.device[i]) && MappingAgrees(m, b.world.device[i]))
    case Invalidate(i) => i < |b.motors| && b.link.mode != Control
    case Unsample(i) => i < |b.motors| && b.link.mode != Control
    case Register(m, blank, _) =>
      b.link.mode == Closed && Registrable(b.motors, b.tables, m) && !blank.valid && blank.sequence == 0
    case Open(_, _, _) => b.link.mode == Closed
    case BeginShutDown => true
    case EndShutDown => true
    case Latch => b.link.mode != Closed
    case Demote => !b.link.closing
    case Promote =>
      b.link.mode == Maintenance && !b.link.passive && !b.link.closing && AllMayControl(b)
    case Recover => b.link.mode in {Fault, Maintenance} && !b.link.stop
  }

  function After(b: Bus, s: Section): Bus
    requires Sound(b) && Applies(b, s)
  {
    match s
    case Hear(f) => b.Heard(f)
    case Wait(n) => b.Waited(n)
    case Die => b.Died()
    case Install(i, operation, rid, deadline) => b.Installed(i, operation, rid, deadline)
    case Send(f, delivered) => b.Sent(f, delivered)
    case FailSend(f) => b.SendFailed(f)
    case Conclude(code) => b.Concluded(code)
    case Transmit(f) => b.Transmitted(f)
    case Doubt(i, mode, mapping) => b.Doubted(i, mode, mapping)
    case DoubtMapping(i) => b.MappingDoubted(i)
    case Commit(i, m) => b.Committed(i, m)
    case Invalidate(i) => b.Invalidated(i)
    case Unsample(i) => b.Unsampled(i)
    case Register(m, blank, registers) => b.Registered(m, blank, registers)
    case Open(passive, timeout, quiet) => b.Opened(passive, timeout, quiet)
    case BeginShutDown => b.Stopping()
    case EndShutDown => b.ShutDown()
    case Latch => b.Latched()
    case Demote => b.Demoted()
    case Promote => b.Promoted()
    case Recover => b.Recovered()
  }

  lemma SectionKeepsSound(b: Bus, s: Section)
    requires Sound(b) && Applies(b, s)
    ensures Sound(After(b, s))
  {
    hide Sound;
    hide Truthful;
    hide Unvouched;
    hide ModeAgrees;
    hide MappingAgrees;
    hide Registrable;
    hide MayControl;
    match s
    case Hear(f) => HeardKeepsSound(b, f);
    case Wait(n) => WaitedKeepsSound(b, n);
    case Die => DiedKeepsSound(b);
    case Install(i, operation, rid, deadline) => InstalledKeepsSound(b, i, operation, rid, deadline);
    case Send(f, delivered) => SentKeepsSound(b, f, delivered);
    case FailSend(f) => SendFailedKeepsSound(b, f);
    case Conclude(code) => ConcludedKeepsSound(b, code);
    case Transmit(f) => TransmittedKeepsSound(b, f);
    case Doubt(i, mode, mapping) => DoubtedKeepsSound(b, i, mode, mapping);
    case DoubtMapping(i) => DoubtedKeepsSound(b, i, false, true);
    case Commit(i, m) => CommittedKeepsSound(b, i, m);
    case Invalidate(i) => InvalidatedKeepsSound(b, i);
    case Unsample(i) => InvalidatedKeepsSound(b, i);
    case Register(m, blank, registers) => RegisteredKeepsSound(b, m, blank, registers);
    case Open(passive, timeout, quiet) => OpenedKeepsSound(b, passive, timeout, quiet);
    case BeginShutDown => ShutDownKeepsSound(b);
    case EndShutDown => ShutDownKeepsSound(b);
    case Latch => LatchedKeepsSound(b);
    case Demote => DemotedKeepsSound(b);
    case Promote => PromotedKeepsSound(b);
    case Recover => RecoveredKeepsSound(b);
  }

  /** `states` is what the sections make of a new bus without motors. */
  ghost predicate IsRun(honest: bool, states: seq<Bus>, sections: seq<Section>) {
    && |states| == |sections| + 1
    && states[0] == Nobody(honest)
    && forall k | 0 <= k < |sections| ::
         Sound(states[k]) ==> Applies(states[k], sections[k]) && states[k + 1] == After(states[k], sections[k])
  }

  /** Every state of every run keeps all promises of the bus. */
  lemma {:induction false} RunKeepsSound(honest: bool, states: seq<Bus>, sections: seq<Section>, k: nat)
    requires IsRun(honest, states, sections) && k < |states|
    ensures Sound(states[k])
  {
    hide Sound;
    hide Applies;
    hide After;
    if k == 0 {
      NobodyIsSound(honest);
    } else {
      RunKeepsSound(honest, states, sections, k - 1);
      SectionKeepsSound(states[k - 1], sections[k - 1]);
    }
  }

  // ----- What that means -----

  /**
   After any run in control, every motor is confirmed in mode and mapping, in position mode and limited, and its
   cached sample is of the current configuration, enabled and within limits.
   */
  lemma ControlIsSafe(honest: bool, states: seq<Bus>, sections: seq<Section>, k: nat, i: nat)
    requires IsRun(honest, states, sections) && k < |states|
    requires states[k].link.mode == Control && i < |states[k].motors|
    ensures var b := states[k];
      && |b.slots| == |b.motors| && !b.link.passive
      && b.motors[i].modeConfirmed && b.motors[i].mappingConfirmed && b.motors[i].mode == PositionVelocity
      && b.slots[i].state.valid && b.slots[i].state.status == 1
      && b.slots[i].state.revision == b.slots[i].revision && b.slots[i].validAfter <= b.slots[i].state.receivedAt
      && b.motors[i].Limited()
      && b.motors[i].minPosition.value.value <= b.slots[i].state.position <= b.motors[i].maxPosition.value.value
  {
    RunKeepsSound(honest, states, sections, k);
    SoundControl(states[k], i);
    hide Sound;
    hide IsRun;
  }

  lemma SoundControl(b: Bus, i: nat)
    requires Sound(b) && b.link.mode == Control && i < |b.motors|
    ensures |b.slots| == |b.motors| && b.motors[i].Ready() && b.slots[i].state.valid && b.slots[i].state.status == 1
      && !b.link.passive
    ensures b.slots[i].Current() && b.motors[i].Allows(b.slots[i].state.position)
  {
  }

  /** After any run of an active bus with honest motors, what is confirmed is what the motors hold, up to rounding. */
  lemma ConfirmedIsHeld(states: seq<Bus>, sections: seq<Section>, k: nat, i: nat)
    requires IsRun(true, states, sections) && k < |states| && i < |states[k].motors|
    requires states[k].link.mode != Closed && !states[k].link.passive
    ensures |states[k].world.device| == |states[k].motors|
    ensures ModeAgrees(states[k].motors[i], states[k].world.device[i])
    ensures MappingAgrees(states[k].motors[i], states[k].world.device[i])
  {
    RunKeepsSound(true, states, sections, k);
    RunKeepsHonest(true, states, sections, k);
    SoundAgreement(states[k], i);
    hide Sound;
    hide IsRun;
  }

  lemma {:induction false} RunKeepsHonest(honest: bool, states: seq<Bus>, sections: seq<Section>, k: nat)
    requires IsRun(honest, states, sections) && k < |states|
    ensures states[k].honest == honest
  {
    hide Sound;
    hide Routed;
    if k > 0 {
      RunKeepsSound(honest, states, sections, k - 1);
      RunKeepsHonest(honest, states, sections, k - 1);
    }
  }

  /** After any run, a receiver that has ended on its own has left a fault, or the bus is closed. */
  lemma DeadReceiverIsKnown(honest: bool, states: seq<Bus>, sections: seq<Section>, k: nat)
    requires IsRun(honest, states, sections) && k < |states|
    ensures states[k].link.stop && !states[k].link.closing ==> states[k].link.mode in {Fault, Closed}
  {
    RunKeepsSound(honest, states, sections, k);
    hide IsRun;
  }

  lemma SoundAgreement(b: Bus, i: nat)
    requires Sound(b) && b.honest && b.link.mode != Closed && !b.link.passive && i < |b.motors|
    ensures |b.world.device| == |b.motors|
    ensures ModeAgrees(b.motors[i], b.world.device[i]) && MappingAgrees(b.motors[i], b.world.device[i])
  {
    hide ModeAgrees;
    hide MappingAgrees;
  }

  lemma SectionKeepsFault(b: Bus, s: Section)
    requires Sound(b) && Applies(b, s) && b.link.mode == Fault && !s.Recover? && !s.EndShutDown?
    ensures After(b, s).link.mode == Fault
  {
    if s.Hear? {
      HeardKeepsSound(b, s.frame);
    }
    hide Sound;
    hide Routed;
  }

  /** Between a fault and a later state without it lies a recovery or the end of closing, which the lemma returns. */
  lemma {:induction false} FaultEndsOnlyBy(honest: bool, states: seq<Bus>, sections: seq<Section>, j: nat, k: nat)
    returns (i: nat)
    requires IsRun(honest, states, sections) && j <= k < |states|
    requires states[j].link.mode == Fault && states[k].link.mode != Fault
    ensures j <= i < k && (sections[i].Recover? || sections[i].EndShutDown?)
    decreases k - j
  {
    hide Sound;
    hide Applies;
    hide After;
    RunKeepsSound(honest, states, sections, j);
    if sections[j].Recover? || sections[j].EndShutDown? {
      i := j;
    } else {
      SectionKeepsFault(states[j], sections[j]);
      i := FaultEndsOnlyBy(honest, states, sections, j + 1, k);
    }
  }
}
