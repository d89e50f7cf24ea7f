/**
 What the position-mode bus keeps: registered motors and their address tables, one feedback
 slot a motor, the link state with its one pending transaction, and, for the proofs, the
 world on the other side of the wire.
 */
module BusState {
  import opened Numbers
  import opened Binary32
  import opened Can
  import opened Protocol

  const MaxMotors := 6

  datatype MotorConfig = MotorConfig(
    name: string, address: Address, mode: Mode, mapping: Mapping, mappingConfirmed: bool, modeConfirmed: bool,
    minPosition: Option<Double>, maxPosition: Option<Double>, maxSpeed: Option<Double>)
  {
    /** Complete, finite and sensible motion limits. */
    predicate Limited() {
      && minPosition.Some? && maxPosition.Some? && maxSpeed.Some?
      && minPosition.value.Finite? && maxPosition.value.Finite? && maxSpeed.value.Finite?
      && 0.0 < maxSpeed.value.value && minPosition.value.value < maxPosition.value.value
    }

    predicate Allows(position: real)
      requires Limited()
    {
      minPosition.value.value <= position <= maxPosition.value.value
    }

    predicate Ready() { modeConfirmed && mappingConfirmed && mode == PositionVelocity && Limited() }
  }

  datatype Slot = Slot(state: MotorState, revision: nat, validAfter: int) {
    predicate Current() { state.valid ==> state.revision == revision && validAfter <= state.receivedAt }

    function Invalidated(now: int): Slot { Slot(state.(valid := false), revision + 1, now) }

    /** A commit of configuration: feedback decoded before it no longer counts. */
    function Renewed(now: int): Slot { Slot(state.(valid := false), revision, now) }
  }

  datatype BusMode = Closed | Maintenance | Control | Fault

  datatype Pending = Pending(
    active: bool, done: bool, index: nat, operation: Byte, rid: Byte, sentAt: int, deadline: int,
    code: Code, value: Option<RegisterValue>)

  const NoPending := Pending(false, false, 0, 0, 0, 0, 0, Ok, None)

  datatype Link = Link(
    mode: BusMode, passive: bool, feedbackTimeout: int, quietPeriod: int, pending: Pending, stop: bool, closing: bool,
    now: int, lastReceive: int)
  {
    function FeedbackCode(slot: Slot): Code {
      if mode == Closed then Disconnected
      else if !slot.state.valid || slot.state.revision != slot.revision || slot.state.receivedAt < slot.validAfter
              || now < slot.state.receivedAt || now - slot.state.receivedAt > feedbackTimeout
      then StaleFeedback
      else if slot.state.status > 1 then MotorFault
      else Ok
    }

    function Faulted(): Link { this.(mode := Fault) }

    function Settled(code: Code, value: Option<RegisterValue>): Link {
      this.(pending := pending.(done := true, code := code, value := value))
    }
  }

  datatype Tables = Tables(esc: seq<int>, mst: seq<int>)

  /** A table without entries. */
  function Unset(n: nat): (table: seq<int>)
    ensures |table| == n && forall i | 0 <= i < n :: table[i] == -1
  {
    if n == 0 then [] else Unset(n - 1) + [-1]
  }

  function NoMotors(): (t: Tables)
    ensures |t.esc| == 16 && |t.mst| == 2048
    ensures (forall i | 0 <= i < 16 :: t.esc[i] == -1) && forall i | 0 <= i < 2048 :: t.mst[i] == -1
  {
    Tables(Unset(16), Unset(2048))
  }

  // ----- Registration -----

  /** Why a motor may not be registered beside the others. */
  predicate Conflicts(motors: seq<MotorConfig>, m: MotorConfig) {
    exists i | 0 <= i < |motors| ::
      motors[i].name == m.name || motors[i].address.mst % 0x100 == m.address.esc
        || m.address.mst % 0x100 == motors[i].address.esc
  }

  predicate Registrable(motors: seq<MotorConfig>, t: Tables, m: MotorConfig)
    requires |t.esc| == 16 && |t.mst| == 2048
  {
    && |motors| < MaxMotors && m.name != "" && m.address.Valid()
    && (m.mappingConfirmed ==> m.mapping.Valid())
    && t.esc[m.address.esc] < 0 && t.mst[m.address.mst] < 0
    && !Conflicts(motors, m)
  }

  function Entered(t: Tables, a: Address, index: nat): Tables
    requires |t.esc| == 16 && |t.mst| == 2048 && a.Valid()
  {
    Tables(t.esc[a.esc := index], t.mst[a.mst := index])
  }

  /** The tables and the motors are inverse to each other, and no motor's low byte is another's command address. */
  predicate Addressed(motors: seq<MotorConfig>, t: Tables) {
    && |t.esc| == 16 && |t.mst| == 2048 && |motors| <= MaxMotors
    && (forall i | 0 <= i < |motors| :: motors[i].address.Valid())
    && (forall i | 0 <= i < |motors| :: t.esc[motors[i].address.esc] == i && t.mst[motors[i].address.mst] == i)
    && (forall e | 0 <= e < 16 :: t.esc[e] >= 0 ==> t.esc[e] < |motors| && motors[t.esc[e]].address.esc == e)
    && (forall m | 0 <= m < 2048 :: t.mst[m] >= 0 ==> t.mst[m] < |motors| && motors[t.mst[m]].address.mst == m)
    && (forall i, j | 0 <= i < |motors| && 0 <= j < |motors| :: motors[i].address.mst % 0x100 != motors[j].address.esc)
    && (forall i, j | 0 <= i < j < |motors| :: motors[i].name != motors[j].name)
  }

  lemma RegistrationKeepsAddresses(motors: seq<MotorConfig>, t: Tables, m: MotorConfig)
    requires Addressed(motors, t) && Registrable(motors, t, m)
    ensures Addressed(motors + [m], Entered(t, m.address, |motors|))
  {
    var after, u := motors + [m], Entered(t, m.address, |motors|);
    forall i | 0 <= i < |motors|
      ensures motors[i].address.esc != m.address.esc && motors[i].address.mst != m.address.mst
    {
    }
    forall i, j | 0 <= i < |after| && 0 <= j < |after|
      ensures after[i].address.mst % 0x100 != after[j].address.esc
    {
    }
  }

  /** The checks against the tables are pairwise checks against the motors: nothing else stands against a motor. */
  lemma RegistrableIff(motors: seq<MotorConfig>, t: Tables, m: MotorConfig)
    requires Addressed(motors, t)
    ensures Registrable(motors, t, m) <==>
      && |motors| < 6 && m.name != "" && 1 <= m.address.esc <= 15 && m.address.mst <= 0x7FE
      && m.address.mst % 0x100 != m.address.esc && (m.mappingConfirmed ==> m.mapping.Valid())
      && forall i | 0 <= i < |motors| ::
        && motors[i].name != m.name
        && motors[i].address.esc != m.address.esc && motors[i].address.mst != m.address.mst
        && motors[i].address.mst % 0x100 != m.address.esc && m.address.mst % 0x100 != motors[i].address.esc
  {
  }

  /** No command identifier that can be sent to one registered motor is the feedback identifier of any. */
  lemma CommandsAreNoFeedback(motors: seq<MotorConfig>, t: Tables, i: nat, j: nat)
    requires Addressed(motors, t) && i < |motors| && j < |motors|
    ensures !Emits(motors[i].address.esc, motors[j].address.mst)
  {
    CommandsAvoidFeedback(motors[i].address.esc, motors[j].address.mst);
  }

  /** A received identifier names at most one motor, the one in the table. */
  lemma FeedbackNamesOneMotor(motors: seq<MotorConfig>, t: Tables, id: nat, i: nat)
    requires Addressed(motors, t) && id <= 0x7FF && i < |motors|
    ensures motors[i].address.mst == id <==> t.mst[id] == i
  {
  }

  // ----- Feedback -----

  /** A feedback frame that entered the cache. */
  datatype Taken = Taken(index: nat, receivedAt: int)

  function TakenBy(taken: seq<Taken>, index: nat): nat {
    if taken == [] then 0 else TakenBy(taken[..|taken| - 1], index) + if taken[|taken| - 1].index == index then 1 else 0
  }

  /**
   Valid samples are current. The sequence number of a motor counts its accepted frames, and
   their times strictly increase up to the cached one.
   */
  predicate Cached(slots: seq<Slot>, taken: seq<Taken>) {
    && (forall i | 0 <= i < |slots| :: slots[i].Current())
    && (forall i | 0 <= i < |slots| :: slots[i].state.sequence == TakenBy(taken, i))
    && (forall k | 0 <= k < |taken| ::
          taken[k].index < |slots| && taken[k].receivedAt <= slots[taken[k].index].state.receivedAt)
    && (forall j, k | 0 <= j < k < |taken| && taken[j].index == taken[k].index ::
          taken[j].receivedAt < taken[k].receivedAt)
  }

  /** A newer frame for motor `i` enters the cache. */
  lemma TakingKeepsCache(slots: seq<Slot>, taken: seq<Taken>, i: nat, s: MotorState)
    requires Cached(slots, taken) && i < |slots|
    requires s.valid && s.revision == slots[i].revision && slots[i].validAfter <= s.receivedAt
      && slots[i].state.receivedAt < s.receivedAt
    requires s.sequence == slots[i].state.sequence + 1
    ensures Cached(slots[i := slots[i].(state := s)], taken + [Taken(i, s.receivedAt)])
  {
  }

  /** Withdrawing samples keeps the cache sound. */
  lemma WithdrawingKeepsCache(slots: seq<Slot>, after: seq<Slot>, taken: seq<Taken>)
    requires Cached(slots, taken) && |after| == |slots|
    requires forall i | 0 <= i < |slots| ::
               after[i] == slots[i] || after[i].state == slots[i].state.(valid := false)
    ensures Cached(after, taken)
  {
  }

  // ----- Control -----

  /** While controlling, every motor is ready and its cached sample enabled and within limits. */
  predicate Controlled(motors: seq<MotorConfig>, slots: seq<Slot>, mode: BusMode, passive: bool) {
    mode == Control ==>
      !passive && forall i | 0 <= i < |motors| && 0 <= i < |slots| ::
        && motors[i].Ready() && slots[i].state.valid && slots[i].state.status == 1
          && motors[i].Allows(slots[i].state.position)
  }

  // ----- The device -----

  /** The registers of one motor, by address. */
  type Registers = map<Byte, Bits>

  function Content(r: Registers, rid: Byte): Bits { if rid in r then r[rid] else 0 }

  function Written(r: Registers, rid: Byte, word: Bits): Registers {
    var written: Registers := map[rid := word];
    r + written
  }

  /** A request that has reached the device and may be answered. */
  datatype Ask = Ask(index: nat, operation: Byte, rid: Byte)

  /** `wire` is every frame handed to the transport, in order. */
  datatype World = World(device: seq<Registers>, asked: Option<Ask>, wire: seq<CanFrame>, taken: seq<Taken>)

  /** On an active open bus, confirmed configuration is what the device holds, the mapping up to rounding. */
  predicate Agrees(motors: seq<MotorConfig>, device: seq<Registers>, mode: BusMode, passive: bool) {
    mode != Closed && !passive ==>
      |device| == |motors|
      && forall i | 0 <= i < |motors| :: ModeAgrees(motors[i], device[i]) && MappingAgrees(motors[i], device[i])
  }

  predicate ModeAgrees(m: MotorConfig, r: Registers) { m.modeConfirmed ==> Content(r, 0x0A) == ModeCode(m.mode) }

  predicate MappingAgrees(m: MotorConfig, r: Registers) {
    m.mappingConfirmed ==>
      && m.mapping.Valid()
      && Content(r, 0x15) == ToBits(m.mapping.position.value)
      && Content(r, 0x16) == ToBits(m.mapping.velocity.value)
      && Content(r, 0x17) == ToBits(m.mapping.torque.value)
  }

  /** A register value as the device holds it: its word, under the type of the table. */
  predicate Holds(r: Registers, rid: Byte, v: RegisterValue) {
    RegisterInfo(rid).Some? && RawBits(v) == Content(r, rid) && v.Float? == RegisterInfo(rid).value.float
      && (v.Float? ==> IsFinite(v.bits))
  }

  /** A finished register transaction carries a value of the type that the table gives the register. */
  predicate Typed(p: Pending) {
    p.active && p.done && p.code == Ok && p.operation in {0x33, 0x55} ==>
      && RegisterInfo(p.rid).Some? && p.value.Some? && p.value.value.Float? == RegisterInfo(p.rid).value.float
      && (p.value.value.Float? ==> IsFinite(p.value.value.bits))
  }

  /** A finished state query was answered by a sample received after the query was entered. */
  predicate Sampled(p: Pending, slots: seq<Slot>) {
    p.active && p.done && p.code == Ok && p.operation == 0xCC ==>
      p.index < |slots| && p.sentAt <= slots[p.index].state.receivedAt
  }

  /** A finished register transaction was asked of the device and carries the value it holds. */
  predicate Answered(p: Pending, w: World) {
    p.active && p.done && p.code == Ok && p.operation in {0x33, 0x55} ==>
      && w.asked == Some(Ask(p.index, p.operation, p.rid)) && p.index < |w.device|
      && p.value.Some? && Holds(w.device[p.index], p.rid, p.value.value)
  }

  /** A register reply answers a request of this transaction, with the value the device holds now. */
  predicate Truthful(motors: seq<MotorConfig>, t: Tables, w: World, f: CanFrame)
    requires Addressed(motors, t)
  {
    f.id <= 0x7FF && t.mst[f.id] >= 0 ==>
      var index := t.mst[f.id];
      ParameterShaped(f, motors[index].address.esc) && f.data[2] in {0x33, 0x55} ==>
        && w.asked == Some(Ask(index, f.data[2], f.data[3])) && index < |w.device|
        && Load(f.data[4..]) == Content(w.device[index], f.data[3])
  }

  // ----- Receiving a frame -----

  datatype Received = Received(slots: seq<Slot>, link: Link, taken: seq<Taken>)

  predicate Matches(p: Pending, index: nat, f: CanFrame) {
    p.active && p.index == index && p.sentAt <= f.receivedAt <= p.deadline
  }

  /** A frame in the shape of a parameter reply settles the transaction it matches, or none. */
  function ParameterReceived(m: MotorConfig, link: Link, index: nat, f: CanFrame): Link {
    var p := link.pending;
    if !Matches(p, index, f) then link
    else if p.operation == f.data[2] && p.rid == f.data[3] then
      if p.operation == 0xAA then link.Settled(DecodeSave(f, m.address), p.value)
      else
        var r := DecodeReply(f, m.address, if p.operation == 0x33 then Read else Write, p.rid);
        if r.Success? then link.Settled(Ok, Some(r.value)) else link.Settled(r.code, None)
    else if p.operation == 0xCC then link.Settled(AmbiguousReply, p.value)
    else link
  }

  /** A feedback sample enters the slot of its motor unless it is late, old or malformed. */
  function FeedbackReceived(m: MotorConfig, slot: Slot, link: Link, index: nat, f: CanFrame): (Slot, Link, bool) {
    var decoded := DecodeFeedback(f, m.address, m.mapping, slot.revision);
    if !m.mappingConfirmed || decoded.Failure? || f.receivedAt < slot.validAfter
       || f.receivedAt <= slot.state.receivedAt then
      (slot, link, false)
    else
      var next := decoded.value.(sequence := slot.state.sequence + 1);
      var settled := if Matches(link.pending, index, f) && link.pending.operation == 0xCC
                     then link.(pending := link.pending.(done := true, code := Ok)) else link;
      var lost := next.status != 1 || !m.Limited() || !m.Allows(next.position);
      (slot.(state := next), if link.mode == Control && lost then settled.Faulted() else settled, true)
  }

  /** `route_frame`. */
  function Routed(motors: seq<MotorConfig>, t: Tables, slots: seq<Slot>, link: Link, taken: seq<Taken>,
                  f: CanFrame): Received
    requires Addressed(motors, t) && |slots| == |motors|
  {
    var heard := link.(lastReceive := link.now);
    if f.id > 0x7FF || f.length > 8 || t.mst[f.id] < 0 then Received(slots, heard, taken)
    else
      var i := t.mst[f.id];
      if ParameterShaped(f, motors[i].address.esc) then
        Received(slots, ParameterReceived(motors[i], heard, i, f), taken)
      else
        var r := FeedbackReceived(motors[i], slots[i], heard, i, f);
        if r.2 then Received(slots[i := r.0], r.1, taken + [Taken(i, f.receivedAt)]) else Received(slots, heard, taken)
  }

  /** The receiver has failed for good. */
  function Died(link: Link): Link {
    var p := if link.pending.active then link.pending.(done := true, code := Disconnected) else link.pending;
    link.(mode := Fault, stop := true, pending := p)
  }

  // ----- What receiving may do -----

  /** The receiver leaves the transaction's identity, the configuration of the link and the past alone. */
  predicate LinkMoved(a: Link, b: Link) {
    && b.passive == a.passive && b.feedbackTimeout == a.feedbackTimeout && b.quietPeriod == a.quietPeriod
      && b.closing == a.closing
    && (b.mode == a.mode || (b.mode == Fault && a.mode != Closed))
    && (a.stop ==> b.stop) && a.now <= b.now
    && SameTransaction(a.pending, b.pending)
  }

  predicate SameTransaction(a: Pending, b: Pending) {
    && a.active == b.active && a.index == b.index && a.operation == b.operation && a.rid == b.rid
    && a.sentAt == b.sentAt && a.deadline == b.deadline
  }

  /** It only ever replaces the sample of a slot by a newer one, and never its revision or its commit time. */
  predicate SlotsMoved(a: seq<Slot>, b: seq<Slot>) {
    |a| == |b| && forall i | 0 <= i < |a| ::
      b[i].revision == a[i].revision && b[i].validAfter == a[i].validAfter
      && a[i].state.receivedAt <= b[i].state.receivedAt
  }

  lemma ParameterMoves(m: MotorConfig, link: Link, index: nat, f: CanFrame)
    ensures LinkMoved(link, ParameterReceived(m, link, index, f))
    ensures ParameterReceived(m, link, index, f).mode == link.mode
      && ParameterReceived(m, link, index, f).stop == link.stop
  {
    hide DecodeReply;
    hide DecodeSave;
  }

  lemma FeedbackMoves(m: MotorConfig, slot: Slot, link: Link, index: nat, f: CanFrame)
    ensures var r := FeedbackReceived(m, slot, link, index, f);
      && LinkMoved(link, r.1) && r.1.stop == link.stop && (r.1.mode != link.mode ==> link.mode == Control)
      && r.0.revision == slot.revision && r.0.validAfter == slot.validAfter
      && slot.state.receivedAt <= r.0.state.receivedAt
  {
    if DecodeFeedback(f, m.address, m.mapping, slot.revision).Success? {
      DecodedFeedback(f, m.address, m.mapping, slot.revision);
    }
    hide DecodeFeedback;
  }

  /**
   A feedback frame enters the cache exactly when the mapping is confirmed, the frame is well formed and the motor's
   own, and it is newer than the commit and the cached sample. It then answers a query that is waiting for it, and in
   control a sample that is not enabled or not within limits is a fault. Any other frame changes nothing.
   */
  lemma FeedbackEntersIff(m: MotorConfig, slot: Slot, link: Link, index: nat, f: CanFrame)
    ensures var r := FeedbackReceived(m, slot, link, index, f);
      && (r.2 <==>
            && m.mappingConfirmed && m.address.Valid() && m.mapping.Valid()
            && f.id == m.address.mst && f.length == 8 && f.data[0] % 16 == m.address.esc
            && slot.validAfter <= f.receivedAt && slot.state.receivedAt < f.receivedAt)
      && (!r.2 ==> r.0 == slot && r.1 == link)
      && (r.2 ==>
            var s := DecodeFeedback(f, m.address, m.mapping, slot.revision);
            var p := link.pending;
            && s.Success? && r.0 == slot.(state := s.value.(sequence := slot.state.sequence + 1))
            && r.1.pending == (if p.active && p.index == index && p.operation == 0xCC
                                  && p.sentAt <= f.receivedAt <= p.deadline
                               then p.(done := true, code := Ok) else p)
            && r.1.mode == if link.mode == Control && !(s.value.status == 1 && m.Limited()
                                  && m.minPosition.value.value <= s.value.position <= m.maxPosition.value.value)
                           then Fault else link.mode)
  {
    hide Unmap;
  }

  /**
   A reply that misses the time window or the motor of the transaction is ignored. Within it, a reply to the request
   settles it with what it decodes to, any parameter reply ends a state query as ambiguous, and others are ignored.
   */
  lemma ReplySettlesIff(m: MotorConfig, link: Link, index: nat, f: CanFrame)
    ensures var p, next := link.pending, ParameterReceived(m, link, index, f);
      && next == link.(pending := next.pending)
      && if !p.active || p.index != index || f.receivedAt < p.sentAt || p.deadline < f.receivedAt then next == link
         else if p.operation == f.data[2] && p.rid == f.data[3] then
           if p.operation == 0xAA then next.pending == p.(done := true, code := DecodeSave(f, m.address))
           else
             var r := DecodeReply(f, m.address, if p.operation == 0x33 then Read else Write, p.rid);
             next.pending == if r.Success? then p.(done := true, code := Ok, value := Some(r.value))
                             else p.(done := true, code := r.code, value := None)
         else if p.operation == 0xCC then next.pending == p.(done := true, code := AmbiguousReply)
         else next == link
  {
    hide DecodeReply;
    hide DecodeSave;
  }

  /** A sample is good exactly on an open bus, while valid, current, not too old, and without a driver fault. */
  lemma FeedbackCodeIff(link: Link, slot: Slot)
    ensures link.FeedbackCode(slot) == Ok <==>
      && link.mode != Closed && slot.state.valid && slot.state.revision == slot.revision
      && slot.validAfter <= slot.state.receivedAt <= link.now <= slot.state.receivedAt + link.feedbackTimeout
      && slot.state.status in {0, 1}
    ensures link.FeedbackCode(slot) in {Ok, Disconnected, StaleFeedback, MotorFault}
    ensures link.FeedbackCode(slot) == Disconnected <==> link.mode == Closed
    ensures link.FeedbackCode(slot) == MotorFault ==> slot.state.valid && slot.state.status > 1
  {
  }

  lemma RoutingMoves(motors: seq<MotorConfig>, t: Tables, slots: seq<Slot>, link: Link, taken: seq<Taken>, f: CanFrame)
    requires Addressed(motors, t) && |slots| == |motors|
    ensures var r := Routed(motors, t, slots, link, taken, f);
      LinkMoved(link, r.link) && SlotsMoved(slots, r.slots) && (r.link.mode != link.mode ==> link.mode == Control)
        && r.link.stop == link.stop
  {
    hide ParameterShaped;
    if f.id <= 0x7FF && t.mst[f.id] >= 0 {
      var i := t.mst[f.id];
      ParameterMoves(motors[i], link.(lastReceive := link.now), i, f);
      FeedbackMoves(motors[i], slots[i], link.(lastReceive := link.now), i, f);
    }
    hide ParameterReceived;
    hide FeedbackReceived;
    hide Addressed;
  }

  /** A frame touches no slot but that of the motor it names. */
  lemma RoutingTouchesOneSlot(motors: seq<MotorConfig>, t: Tables, slots: seq<Slot>, link: Link, taken: seq<Taken>,
                              f: CanFrame, j: nat)
    requires Addressed(motors, t) && |slots| == |motors| && j < |motors|
    requires motors[j].address.mst != f.id
    ensures Routed(motors, t, slots, link, taken, f).slots[j] == slots[j]
  {
  }

  lemma DecodedFeedback(f: CanFrame, a: Address, m: Mapping, revision: nat)
    requires DecodeFeedback(f, a, m, revision).Success?
    ensures var s := DecodeFeedback(f, a, m, revision).value;
      s.valid && s.revision == revision && s.receivedAt == f.receivedAt
  {
  }

  lemma RoutingKeepsCache(motors: seq<MotorConfig>, t: Tables, slots: seq<Slot>, link: Link, taken: seq<Taken>,
                          f: CanFrame)
    requires Addressed(motors, t) && |slots| == |motors| && Cached(slots, taken)
    ensures var r := Routed(motors, t, slots, link, taken, f); Cached(r.slots, r.taken)
  {
    hide Cached;
    hide DecodeReply;
    hide DecodeSave;
    hide ParameterShaped;
    if f.id <= 0x7FF && t.mst[f.id] >= 0 {
      var i := t.mst[f.id];
      var r := FeedbackReceived(motors[i], slots[i], link.(lastReceive := link.now), i, f);
      if r.2 {
        DecodedFeedback(f, motors[i].address, motors[i].mapping, slots[i].revision);
        hide DecodeFeedback;
        TakingKeepsCache(slots, taken, i, r.0.state);
      }
    }
  }

  lemma RoutingKeepsControl(motors: seq<MotorConfig>, t: Tables, slots: seq<Slot>, link: Link, taken: seq<Taken>,
                            f: CanFrame)
    requires Addressed(motors, t) && |slots| == |motors| && Controlled(motors, slots, link.mode, link.passive)
    ensures var r := Routed(motors, t, slots, link, taken, f); Controlled(motors, r.slots, r.link.mode, r.link.passive)
  {
    hide DecodeReply;
    hide DecodeSave;
    hide ParameterShaped;
    if f.id <= 0x7FF && t.mst[f.id] >= 0 {
      var i := t.mst[f.id];
      if DecodeFeedback(f, motors[i].address, motors[i].mapping, slots[i].revision).Success? {
        DecodedFeedback(f, motors[i].address, motors[i].mapping, slots[i].revision);
      }
      hide DecodeFeedback;
    }
  }

  /** A truthful register reply decodes to what the device holds. */
  lemma TruthfulReplyHolds(f: CanFrame, a: Address, op: Operation, rid: Byte, r: Registers)
    requires DecodeReply(f, a, op, rid).Success? && Load(f.data[4..]) == Content(r, rid)
    ensures Holds(r, rid, DecodeReply(f, a, op, rid).value)
  {
  }

  lemma RoutingKeepsAnswer(motors: seq<MotorConfig>, t: Tables, slots: seq<Slot>, link: Link, w: World, f: CanFrame)
    requires Addressed(motors, t) && |slots| == |motors| && Answered(link.pending, w) && Truthful(motors, t, w, f)
    ensures Answered(Routed(motors, t, slots, link, w.taken, f).link.pending, w)
  {
    hide Holds;
    hide Load;
    hide DecodeSave;
    hide DecodeFeedback;
    hide RegisterInfo;
    var p := link.pending;
    if f.id <= 0x7FF && f.length <= 8 && t.mst[f.id] >= 0 {
      var i := t.mst[f.id];
      if ParameterShaped(f, motors[i].address.esc) && Matches(p, i, f) && p.operation == f.data[2]
         && p.rid == f.data[3] && p.operation != 0xAA {
        var op := if p.operation == 0x33 then Read else Write;
        if DecodeReply(f, motors[i].address, op, p.rid).Success? {
          TruthfulReplyHolds(f, motors[i].address, op, p.rid, w.device[i]);
        }
      }
      hide DecodeReply;
    }
  }

  lemma FeedbackKeepsSampled(m: MotorConfig, slot: Slot, link: Link, index: nat, f: CanFrame, slots: seq<Slot>)
    requires index < |slots| && slot == slots[index] && Sampled(link.pending, slots)
    ensures var r := FeedbackReceived(m, slot, link, index, f); Sampled(r.1.pending, slots[index := r.0])
  {
    if DecodeFeedback(f, m.address, m.mapping, slot.revision).Success? {
      DecodedFeedback(f, m.address, m.mapping, slot.revision);
    }
    hide DecodeFeedback;
  }

  lemma ParameterKeepsSampled(m: MotorConfig, slots: seq<Slot>, link: Link, index: nat, f: CanFrame)
    requires Sampled(link.pending, slots) && f.data[2] in {0x33, 0x55, 0xAA}
    ensures Sampled(ParameterReceived(m, link, index, f).pending, slots)
  {
    hide DecodeReply;
    hide DecodeSave;
  }

  lemma RoutingKeepsSampled(motors: seq<MotorConfig>, t: Tables, slots: seq<Slot>, link: Link, taken: seq<Taken>,
                            f: CanFrame)
    requires Addressed(motors, t) && |slots| == |motors| && Sampled(link.pending, slots)
    ensures var r := Routed(motors, t, slots, link, taken, f); Sampled(r.link.pending, r.slots)
  {
    hide Sampled;
    var heard := link.(lastReceive := link.now);
    if f.id <= 0x7FF && f.length <= 8 && t.mst[f.id] >= 0 {
      var i := t.mst[f.id];
      FeedbackKeepsSampled(motors[i], slots[i], heard, i, f, slots);
      if ParameterShaped(f, motors[i].address.esc) { ParameterKeepsSampled(motors[i], slots, heard, i, f); }
    }
    hide ParameterReceived;
    hide FeedbackReceived;
    hide ParameterShaped;
    hide Addressed;
  }

  lemma RoutingKeepsAgreement(motors: seq<MotorConfig>, t: Tables, slots: seq<Slot>, link: Link, w: World, f: CanFrame)
    requires Addressed(motors, t) && |slots| == |motors| && Agrees(motors, w.device, link.mode, link.passive)
    ensures var r := Routed(motors, t, slots, link, w.taken, f); Agrees(motors, w.device, r.link.mode, r.link.passive)
  {
    RoutingMoves(motors, t, slots, link, w.taken, f);
    hide Routed;
    hide ModeAgrees;
    hide MappingAgrees;
  }

  lemma RoutingKeepsType(motors: seq<MotorConfig>, t: Tables, slots: seq<Slot>, link: Link, taken: seq<Taken>,
                         f: CanFrame)
    requires Addressed(motors, t) && |slots| == |motors| && Typed(link.pending)
    ensures Typed(Routed(motors, t, slots, link, taken, f).link.pending)
  {
    var heard := link.(lastReceive := link.now);
    if f.id <= 0x7FF && f.length <= 8 && t.mst[f.id] >= 0 {
      var i := t.mst[f.id];
      ParameterKeepsType(motors[i], heard, i, f);
      FeedbackKeepsType(motors[i], slots[i], heard, i, f);
    }
    hide ParameterReceived;
    hide FeedbackReceived;
    hide ParameterShaped;
    hide Addressed;
    hide Typed;
  }

  lemma ParameterKeepsType(m: MotorConfig, link: Link, index: nat, f: CanFrame)
    requires Typed(link.pending)
    ensures Typed(ParameterReceived(m, link, index, f).pending)
  {
    hide Load;
    hide DecodeSave;
    hide RegisterInfo;
  }

  lemma FeedbackKeepsType(m: MotorConfig, slot: Slot, link: Link, index: nat, f: CanFrame)
    requires Typed(link.pending)
    ensures Typed(FeedbackReceived(m, slot, link, index, f).1.pending)
  {
    hide DecodeFeedback;
    hide RegisterInfo;
  }

  /** Of two matching register replies that arrive before the waiter wakes, the second one counts. */
  lemma LastReplyWins(m: MotorConfig, link: Link, index: nat, f: CanFrame, g: CanFrame, v: RegisterValue)
    requires link.pending.operation in {0x33, 0x55} && Matches(link.pending, index, f)
      && Matches(link.pending, index, g)
    requires f.data[2] == g.data[2] == link.pending.operation && f.data[3] == g.data[3] == link.pending.rid
    requires var op := if link.pending.operation == 0x33 then Read else Write;
      DecodeReply(g, m.address, op, link.pending.rid) == Success(v)
    ensures var p := ParameterReceived(m, ParameterReceived(m, link, index, f), index, g).pending;
      p.done && p.code == Ok && p.value == Some(v)
  {
    hide DecodeReply;
    hide DecodeSave;
  }
}
