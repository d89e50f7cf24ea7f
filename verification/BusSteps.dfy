/**
 The sections that the bus runs under its cache lock, as steps on everything it keeps, and what every step preserves.
 */
module BusSteps {
  import opened Numbers
  import opened Binary32
  import opened Can
  import opened Protocol
  import opened BusState

  /** `honest` devices answer requests truthfully and change registers only when written; of others nothing is known. */
  datatype Bus = Bus(honest: bool, motors: seq<MotorConfig>, tables: Tables, slots: seq<Slot>, link: Link,
    world: World) {

    // ----- The receiver -----

    function Heard(f: CanFrame): Bus
      requires Sound(this)
    {
      var r := Routed(motors, tables, slots, link, world.taken, f);
      this.(slots := r.slots, link := r.link, world := world.(taken := r.taken))
    }

    function Waited(n: nat): Bus { this.(link := link.(now := link.now + n)) }

    function Died(): Bus { this.(link := BusState.Died(link)) }

    // ----- Transactions -----

    /** A transaction is entered; whatever was asked before will not be answered any more. */
    function Installed(index: nat, operation: Byte, rid: Byte, deadline: int): Bus {
      this.(link := link.(pending := Pending(true, false, index, operation, rid, link.now, deadline, Ok, None)),
            world := world.(asked := None))
    }

    /** The transport takes the request, and it may or may not reach the motor; a write that arrives is applied. */
    function Sent(request: CanFrame, delivered: bool): Bus
      requires link.pending.index < |world.device|
    {
      var p := link.pending;
      var w := world.(wire := world.wire + [request]);
      if !delivered then this.(world := w)
      else
        this.(world := w.(asked := Some(Ask(p.index, p.operation, p.rid)),
                          device := if p.operation != 0x55 then w.device
                                    else
                                      var word := Load(request.data[4..]);
                                      w.device[p.index := Written(w.device[p.index], p.rid, word)]))
    }

    function SendFailed(request: CanFrame): Bus {
      this.(link := link.(pending := link.pending.(active := false), mode := Fault),
        world := world.(wire := world.wire + [request]))
    }

    /** The end of a transaction; anything but success latches the fault. */
    function Concluded(code: Code): Bus {
      var l := link.(pending := link.pending.(active := false));
      this.(link := if code == Ok then l else l.Faulted())
    }

    // ----- Configuration -----

    /** Withdraws the sample of a motor and whatever trust in its configuration is at stake. */
    function Doubted(index: nat, mode: bool, mapping: bool): Bus
      requires index < |motors| && index < |slots|
    {
      var m := motors[index];
      this.(slots := slots[index := slots[index].Invalidated(link.now)],
            motors := motors[index := m.(modeConfirmed := m.modeConfirmed && !mode,
                                         mappingConfirmed := m.mappingConfirmed && !mapping)])
    }

    /** Withdraws trust in the mapping alone. */
    function MappingDoubted(index: nat): Bus
      requires index < |motors|
    {
      this.(motors := motors[index := motors[index].(mappingConfirmed := false)])
    }

    /** Publishes a new configuration of a motor, and no longer counts the samples decoded before. */
    function Committed(index: nat, m: MotorConfig): Bus
      requires index < |motors| && index < |slots|
    {
      this.(motors := motors[index := m], slots := slots[index := slots[index].Renewed(link.now)])
    }

    function Invalidated(index: nat): Bus
      requires index < |slots|
    {
      this.(slots := slots[index := slots[index].Invalidated(link.now)])
    }

    function Unsampled(index: nat): Bus
      requires index < |slots|
    {
      this.(slots := slots[index := slots[index].(state := slots[index].state.(valid := false))])
    }

    // ----- The life of the bus -----

    function Registered(m: MotorConfig, blank: MotorState, registers: Registers): Bus
      requires |tables.esc| == 16 && |tables.mst| == 2048 && m.address.Valid()
    {
      this.(motors := motors + [m.(modeConfirmed := false)], tables := Entered(tables, m.address, |motors|),
            slots := slots + [Slot(blank, 1, 0)], world := world.(device := world.device + [registers]))
    }

    /** A new session trusts no mode, and no mapping unless it only listens. */
    function Opened(passive: bool, feedbackTimeout: int, quietPeriod: int): Bus {
      this.(link := Link(Maintenance, passive, feedbackTimeout, quietPeriod, NoPending, false, false, link.now,
        link.now),
            slots := seq(|slots|, i requires 0 <= i < |slots| => slots[i].Renewed(link.now)),
            motors := seq(|motors|, i requires 0 <= i < |motors| =>
                        motors[i].(modeConfirmed := false, mappingConfirmed := motors[i].mappingConfirmed && passive)))
    }

    /** The receiver is told to stop; it may still route a frame before it does. */
    function Stopping(): Bus { this.(link := link.(stop := true, closing := true)) }

    function ShutDown(): Bus {
      this.(link := link.(mode := Closed, closing := false, pending := NoPending),
            slots := seq(|slots|, i requires 0 <= i < |slots| => slots[i].(state := slots[i].state.(valid := false))))
    }

    function Latched(): Bus { this.(link := link.Faulted()) }

    /** Leaving control, if it was entered. */
    function Demoted(): Bus { if link.mode == Control then this.(link := link.(mode := Maintenance)) else this }

    function Promoted(): Bus { this.(link := link.(mode := Control)) }

    function Recovered(): Bus {
      this.(slots := seq(|slots|, i requires 0 <= i < |slots| => slots[i].Invalidated(link.now)),
            link := link.(pending := NoPending, mode := Maintenance))
    }

    function Transmitted(f: CanFrame): Bus { this.(world := world.(wire := world.wire + [f])) }
  }

  /** Everything the bus promises between two sections. */
  predicate Sound(b: Bus) {
    && |b.slots| == |b.motors| && |b.world.device| == |b.motors|
    && Addressed(b.motors, b.tables)
    && Cached(b.slots, b.world.taken)
    && Controlled(b.motors, b.slots, b.link.mode, b.link.passive)
    && (b.link.stop && !b.link.closing ==> b.link.mode in {Fault, Closed})
    && Typed(b.link.pending) && Sampled(b.link.pending, b.slots)
    && (b.honest ==> Agrees(b.motors, b.world.device, b.link.mode, b.link.passive) && Answered(b.link.pending, b.world))
  }

  /** What the receiver may have done between `a` and `b`. */
  predicate Moved(a: Bus, b: Bus) {
    && b.honest == a.honest && b.motors == a.motors && b.tables == a.tables
    && b.world == a.world.(taken := b.world.taken)
    && LinkMoved(a.link, b.link) && SlotsMoved(a.slots, b.slots)
  }

  const AtRest := Link(Closed, false, 0, 0, NoPending, true, false, 0, 0)

  /** A new bus. */
  function Nobody(honest: bool): Bus { Bus(honest, [], NoMotors(), [], AtRest, World([], None, [], [])) }

  lemma NobodyIsSound(honest: bool)
    ensures Sound(Nobody(honest))
  {
    hide Sound;
    hide NoMotors;
    NobodyIsAddressed(NoMotors());
    EmptyIsSound(honest, NoMotors());
  }

  lemma EmptyIsSound(honest: bool, t: Tables)
    requires Addressed([], t)
    ensures Sound(Bus(honest, [], t, [], AtRest, World([], None, [], [])))
  {
    hide Addressed;
    IdleIsSound(AtRest, World([], None, [], []));
    hide Cached;
    hide Controlled;
    hide Agrees;
    hide Answered;
    hide Typed;
    hide Sampled;
  }

  /** Without motors and without a transaction there is nothing to keep. */
  lemma IdleIsSound(link: Link, w: World)
    requires !link.pending.active && link.mode == Closed && w.taken == []
    ensures Cached([], w.taken) && Controlled([], [], link.mode, link.passive)
    ensures Agrees([], w.device, link.mode, link.passive) && Answered(link.pending, w)
    ensures Typed(link.pending) && Sampled(link.pending, [])
  {
    hide Holds;
    hide RegisterInfo;
  }

  lemma NobodyIsAddressed(t: Tables)
    requires |t.esc| == 16 && |t.mst| == 2048
    requires (forall i | 0 <= i < 16 :: t.esc[i] == -1) && forall i | 0 <= i < 2048 :: t.mst[i] == -1
    ensures Addressed([], t)
  {
  }

  lemma MovedOnward(a: Bus, b: Bus, c: Bus)
    requires Moved(a, b) && Moved(b, c)
    ensures Moved(a, c)
  {
  }

  lemma HeardKeepsSound(b: Bus, f: CanFrame)
    requires Sound(b) && (b.honest ==> Truthful(b.motors, b.tables, b.world, f))
    ensures Sound(b.Heard(f)) && Moved(b, b.Heard(f))
  {
    RoutingMoves(b.motors, b.tables, b.slots, b.link, b.world.taken, f);
    RoutingKeepsCache(b.motors, b.tables, b.slots, b.link, b.world.taken, f);
    RoutingKeepsControl(b.motors, b.tables, b.slots, b.link, b.world.taken, f);
    RoutingKeepsType(b.motors, b.tables, b.slots, b.link, b.world.taken, f);
    RoutingKeepsSampled(b.motors, b.tables, b.slots, b.link, b.world.taken, f);
    if b.honest {
      RoutingKeepsAnswer(b.motors, b.tables, b.slots, b.link, b.world, f);
      RoutingKeepsAgreement(b.motors, b.tables, b.slots, b.link, b.world, f);
    }
    hide Routed;
    hide Truthful;
    hide Addressed;
    hide Cached;
    hide Controlled;
    hide Agrees;
    hide Holds;
    hide Typed;
  }

  lemma WaitedKeepsSound(b: Bus, n: nat)
    requires Sound(b)
    ensures Sound(b.Waited(n)) && Moved(b, b.Waited(n))
  {
  }

  lemma DiedKeepsSound(b: Bus)
    requires Sound(b) && b.link.mode != Closed
    ensures Sound(b.Died()) && Moved(b, b.Died())
    ensures b.Died().link.mode == Fault && b.Died().link.stop
    ensures b.link.pending.active ==> b.Died().link.pending.done && b.Died().link.pending.code == Disconnected
  {
  }

  // ----- Transactions -----

  lemma InstalledKeepsSound(b: Bus, index: nat, operation: Byte, rid: Byte, deadline: int)
    requires Sound(b)
    ensures Sound(b.Installed(index, operation, rid, deadline))
  {
  }

  /** A register whose value the host does not vouch for. */
  predicate Unvouched(m: MotorConfig, rid: Byte) {
    && (rid == 0x0A ==> !m.modeConfirmed)
    && (rid in {0x15, 0x16, 0x17} ==> !m.mappingConfirmed)
  }

  lemma SentKeepsSound(b: Bus, request: CanFrame, delivered: bool)
    requires Sound(b) && b.link.pending.index < |b.motors|
    requires b.honest ==> b.world.asked == None
    requires b.link.pending.operation == 0x55 ==> Unvouched(b.motors[b.link.pending.index], b.link.pending.rid)
    ensures Sound(b.Sent(request, delivered))
  {
    hide Addressed;
    hide Cached;
    hide Controlled;
    hide Holds;
    hide Load;
    hide ToBits;
  }

  lemma SendFailedKeepsSound(b: Bus, request: CanFrame)
    requires Sound(b) && b.link.mode != Closed
    ensures Sound(b.SendFailed(request))
  {
  }

  lemma ConcludedKeepsSound(b: Bus, code: Code)
    requires Sound(b) && b.link.mode != Closed
    ensures Sound(b.Concluded(code))
  {
  }

  // ----- Configuration -----

  lemma SameAddresses(motors: seq<MotorConfig>, after: seq<MotorConfig>, t: Tables)
    requires Addressed(motors, t) && |after| == |motors|
    requires forall i | 0 <= i < |motors| :: after[i].address == motors[i].address && after[i].name == motors[i].name
    ensures Addressed(after, t)
  {
  }

  /** Changing the configuration of one motor, outside control, to one the device bears out. */
  lemma CommittedKeepsSound(b: Bus, index: nat, m: MotorConfig)
    requires Sound(b) && index < |b.motors| && b.link.mode != Control
    requires m.address == b.motors[index].address && m.name == b.motors[index].name
    requires b.honest && b.link.mode != Closed && !b.link.passive ==>
               ModeAgrees(m, b.world.device[index]) && MappingAgrees(m, b.world.device[index])
    ensures Sound(b.Committed(index, m))
    ensures !b.Committed(index, m).slots[index].state.valid
      && b.Committed(index, m).slots[index].validAfter == b.link.now
  {
    SameAddresses(b.motors, b.Committed(index, m).motors, b.tables);
    WithdrawingKeepsCache(b.slots, b.Committed(index, m).slots, b.world.taken);
    hide Addressed;
    hide Cached;
    hide Answered;
    hide Typed;
    hide ModeAgrees;
    hide MappingAgrees;
  }

  /** Taking trust away, outside control. */
  lemma DoubtedKeepsSound(b: Bus, index: nat, mode: bool, mapping: bool)
    requires Sound(b) && index < |b.motors| && b.link.mode != Control
    ensures Sound(b.Doubted(index, mode, mapping)) && Sound(b.MappingDoubted(index))
  {
    SameAddresses(b.motors, b.Doubted(index, mode, mapping).motors, b.tables);
    SameAddresses(b.motors, b.MappingDoubted(index).motors, b.tables);
    WithdrawingKeepsCache(b.slots, b.Doubted(index, mode, mapping).slots, b.world.taken);
    hide Addressed;
    hide Cached;
    hide Answered;
    hide Typed;
    hide ToBits;
  }

  lemma InvalidatedKeepsSound(b: Bus, index: nat)
    requires Sound(b) && index < |b.motors| && b.link.mode != Control
    ensures Sound(b.Invalidated(index)) && Sound(b.Unsampled(index))
  {
    WithdrawingKeepsCache(b.slots, b.Invalidated(index).slots, b.world.taken);
    WithdrawingKeepsCache(b.slots, b.Unsampled(index).slots, b.world.taken);
    hide Addressed;
    hide Cached;
    hide Answered;
    hide Typed;
    hide Agrees;
  }

  // ----- The life of the bus -----

  lemma LatchedKeepsSound(b: Bus)
    requires Sound(b) && b.link.mode != Closed
    ensures Sound(b.Latched())
  {
  }

  lemma DemotedKeepsSound(b: Bus)
    requires Sound(b) && !b.link.closing
    ensures Sound(b.Demoted())
  {
  }

  /** What entering control demands of one motor. */
  predicate MayControl(b: Bus, i: nat)
    requires i < |b.motors| && i < |b.slots|
  {
    && b.link.FeedbackCode(b.slots[i]) == Ok && b.slots[i].state.status == 1
    && b.motors[i].Ready() && b.motors[i].Allows(b.slots[i].state.position)
  }

  lemma PromotedKeepsSound(b: Bus)
    requires Sound(b) && b.link.mode == Maintenance && !b.link.passive && !b.link.closing
    requires forall i | 0 <= i < |b.motors| :: MayControl(b, i)
    ensures Sound(b.Promoted())
  {
    hide Addressed;
    hide Cached;
    hide Answered;
    hide Typed;
    hide ModeAgrees;
    hide MappingAgrees;
    forall i | 0 <= i < |b.motors|
      ensures b.motors[i].Ready() && b.slots[i].state.valid && b.slots[i].state.status == 1
        && b.motors[i].Allows(b.slots[i].state.position)
    {
      assert MayControl(b, i);
    }
  }

  lemma RecoveredKeepsSound(b: Bus)
    requires Sound(b) && b.link.mode in {Fault, Maintenance} && !b.link.stop
    ensures Sound(b.Recovered())
  {
    WithdrawingKeepsCache(b.slots, b.Recovered().slots, b.world.taken) by {
      CacheCounts(b);
    }
    hide Addressed;
    hide Cached;
    hide ModeAgrees;
    hide MappingAgrees;
  }

  lemma CacheCounts(b: Bus)
    requires Sound(b)
    ensures Cached(b.slots, b.world.taken)
  {
  }

  lemma TransmittedKeepsSound(b: Bus, f: CanFrame)
    requires Sound(b)
    ensures Sound(b.Transmitted(f))
  {
  }

  lemma RegisteredKeepsSound(b: Bus, m: MotorConfig, s: MotorState, registers: Registers)
    requires Sound(b) && b.link.mode == Closed && Registrable(b.motors, b.tables, m) && !s.valid && s.sequence == 0
    ensures Sound(b.Registered(m, s, registers))
  {
    var entered := m.(modeConfirmed := false);
    RegistrationKeepsAddresses(b.motors, b.tables, entered) by {
      assert Conflicts(b.motors, entered) == Conflicts(b.motors, m);
    }
    NewcomerKeepsCache(b.slots, b.world.taken, s);
    hide Registrable;
    hide Addressed;
    hide Cached;
    hide Holds;
  }

  lemma NewcomerKeepsCache(slots: seq<Slot>, taken: seq<Taken>, s: MotorState)
    requires Cached(slots, taken) && !s.valid && s.sequence == 0
    ensures Cached(slots + [Slot(s, 1, 0)], taken)
  {
    NobodyElseTook(slots, taken, |slots|, |taken|);
    assert taken[..|taken|] == taken;
    hide TakenBy;
  }

  lemma {:induction false} NobodyElseTook(slots: seq<Slot>, taken: seq<Taken>, index: nat, n: nat)
    requires Cached(slots, taken) && |slots| <= index && n <= |taken|
    ensures TakenBy(taken[..n], index) == 0
    decreases n
  {
    if n > 0 {
      NobodyElseTook(slots, taken, index, n - 1);
      assert taken[..n][..n - 1] == taken[..n - 1];
    }
  }

  lemma OpenedKeepsSound(b: Bus, passive: bool, feedbackTimeout: int, quietPeriod: int)
    requires Sound(b) && b.link.mode == Closed
    ensures Sound(b.Opened(passive, feedbackTimeout, quietPeriod))
  {
    var next := b.Opened(passive, feedbackTimeout, quietPeriod);
    SameAddresses(b.motors, next.motors, b.tables);
    WithdrawingKeepsCache(b.slots, next.slots, b.world.taken);
    hide Addressed;
    hide Cached;
    hide Holds;
  }

  lemma ShutDownKeepsSound(b: Bus)
    requires Sound(b)
    ensures Sound(b.ShutDown()) && Sound(b.Stopping())
  {
    WithdrawingKeepsCache(b.slots, b.ShutDown().slots, b.world.taken);
    hide Addressed;
    hide Cached;
    hide Holds;
    hide ModeAgrees;
    hide MappingAgrees;
    hide Typed;
  }
}
