/**
 The wheel runtime as its threads interleave: clients submit, the manager schedules, the
 transmit thread performs, the receive thread may report a fault. Each action below is one
 section under the state lock, or work that only the transmit thread can see.
 */
module WheelRuntime {
  import opened Numbers
  import opened WheelMotion
  import opened Braking
  import opened Binary32
  import opened Can
  import opened RequestLedger
  import opened MotionPermit
  import RM = RelativeMotion

  datatype Settings = Settings(
    session: string, mode: RM.Mode, limits: Limits, capacity: nat, history: nat,
    maxDistance: real, maxYaw: real, benchTravel: real, maxTimeout: real)
  {
    predicate Valid() { limits.Valid() && limits.bench == (mode == RM.Bench) }

    function Geometry(): RM.Geometry { RM.Geometry(limits.radius, limits.separation) }

    /** Why a relative goal is refused before anything is enabled, if it is. */
    function GoalRefusal(goal: RawGoal): Option<Reason> {
      if !goal.value.Finite? || !goal.maxSpeed.Finite? || !goal.timeout.Finite? || goal.maxSpeed.value <= 0.0
         || goal.timeout.value < 0.0 || (maxTimeout > 0.0 && goal.timeout.value > maxTimeout)
         || goal.kind < 1 || goal.kind > 3 || Abs(goal.value.value) < 0.000001
      then Some(BadGoal)
      else if mode == RM.Base || (goal.kind == 3 && mode != RM.Bench) || (goal.kind != 3 && !Geometry().Valid())
      then Some(WrongRunner)
      else
        var limit := if goal.kind == 1 then maxDistance else if goal.kind == 2 then maxYaw else benchTravel * 0.8;
        if (limit > 0.0 && Abs(goal.value.value) > limit)
           || (goal.kind == 3 && goal.maxSpeed.value > limits.wheelSpeed)
           || (goal.kind == 1 && limits.linearSpeed > 0.0 && goal.maxSpeed.value > limits.linearSpeed)
           || (goal.kind == 2 && limits.angularSpeed > 0.0 && goal.maxSpeed.value > limits.angularSpeed)
        then Some(GoalTooLarge)
        else None
    }
  }

  datatype Reason =
    | BadId | SessionMismatch | PayloadMismatch | Busy | NotReady | RelativeOwns | NotIdle
    | BadGoal | WrongRunner | GoalTooLarge | FaultMismatch | QueueFull

  datatype Answer = Accepted | Existing | Rejected(why: Reason)

  /** Where the transmit thread stands. */
  datatype Phase =
    | Booting
    | Looping
    | Starting(request: Request)
    | Enabling(request: Request, checked: bool)
    | Enabled(request: Request)
    | Faulting(next: Phase)
    | Halting(disable: bool, generation: nat, next: Phase)
    | Cancelling(next: Phase)
    | Ending(code: Code)
    | Answering(request: Request, code: Code)
  {
    /** The request of the manager that is being worked on. */
    function Job(): Option<Request> {
      match this
      case Starting(r) => Some(r)
      case Enabling(r, _) => Some(r)
      case Enabled(r) => Some(r)
      case Faulting(n) => n.Job()
      case Halting(_, _, n) => n.Job()
      case Cancelling(n) => n.Job()
      case Answering(r, _) => Some(r)
      case _ => None
    }

    /** Does a relative motion taken down wait for its result to be published? */
    predicate Owes() {
      match this
      case Faulting(n) => n.Owes()
      case Halting(_, _, n) => n.Owes()
      case Cancelling(_) => true
      case Ending(_) => true
      case _ => false
    }

    /** A failed stop replaces a success that was to be reported after it, and any outcome of a relative motion. */
    function Failing(): Phase {
      match this
      case Ending(_) => Ending(BusError)
      case Answering(r, code) => Answering(r, if code == Ok then BusError else code)
      case Cancelling(n) => Cancelling(n.Failing())
      case _ => this
    }

    /** Where a failure with this code leads once the drivers are down, if it can happen here. */
    function AfterFault(code: Code): Option<Phase> {
      match this
      case Looping => Some(this)
      case Halting(_, _, _) => Some(this)
      case Starting(r) => if code != Ok then Some(Answering(r, code)) else None
      case Enabling(r, _) => if code != Ok then Some(Answering(r, code)) else None
      case Ending(_) => if code != Ok then Some(Ending(code)) else None
      case _ => None
    }

    predicate WellFormed() {
      match this
      case Enabling(r, _) => r.operation in {Enable, Relative}
      case Enabled(r) => r.operation == Relative
      case Faulting(n) => n.WellFormed()
      case Halting(_, _, n) => n.WellFormed() && (n.Looping? || n.Cancelling? || n.Ending? || n.Answering?)
      case Cancelling(n) => n.WellFormed() && n.Answering?
      case Answering(r, code) => r.operation == Relative ==> code != Ok
      case _ => true
    }

    /** No controlled stop is on the way to answering an enable. */
    predicate HaltsNoEnable() {
      match this
      case Faulting(n) => n.HaltsNoEnable()
      case Halting(_, _, n) => n.Job().None? || n.Job().value.operation != Enable
      case Cancelling(n) => n.Job().None? || n.Job().value.operation != Enable
      case _ => true
    }

    /** Does the manager's enable stand answered with success? */
    predicate AnswersEnabled() { Answering? && code == Ok && request.operation == Enable }

    /** While enabling, the configuration has been confirmed. */
    predicate NeedsConfigured() {
      match this
      case Enabling(_, _) => true
      case Enabled(_) => true
      case Faulting(n) => n.NeedsConfigured()
      case _ => false
    }
  }

  datatype Action =
    // any thread
    | Submit(session: string, id: Id, payload: Payload)
    | TakeEvents
    | Command(speed: Pair)
    | RequestFault
    // the manager
    | Schedule
    | Collect
    // the transmit thread
    | Configure(verified: bool)
    | TakeJob
    | Refuse(code: Code)
    | BeginEnable
    | Recheck
    | Abandon
    | Grant
    | Launch(go: bool)
    | CommitClear
    | BeginStop
    | HaltLoop
    | BrakeTick
    | Fault(code: Code)
    | SettleFault
    | EndStop(settled: bool, sawFault: bool, confirmed: bool)
    | PublishCancelled
    | EndRelative(code: Code, stopped: bool)
    | Observe(code: Code)
    | PublishEnd
    | Reply
    | Aim(speed: Pair)
    | Tick(recent: bool)

  datatype Runtime = Runtime(ledger: Ledger, job: Option<Request>, phase: Phase, permit: Permit) {

    /** The checks of `submit` in their order; none is left to answer when the request may be entered. */
    function Screened(s: Settings, session: string, id: Id, payload: Payload): Option<Answer> {
      var op := payload.operation;
      var idle := ledger.places.queue == [] && job.None?;
      if |id| == 0 || |id| > 128 then Some(Rejected(BadId))
      else if op != Stop && session != s.session then Some(Rejected(SessionMismatch))
      else if id in ledger.book.results then
        Some(if id in ledger.book.fingerprints && ledger.book.fingerprints[id] == payload then Existing
             else Rejected(PayloadMismatch))
      else if op == Enable && (permit.enabled || permit.lifecycle == Arming || !idle) then Some(Rejected(Busy))
      else if op == Enable && (!permit.configured || permit.fault) then Some(Rejected(NotReady))
      else if op in {Enable, Relative} && ledger.book.relativeActive then Some(Rejected(RelativeOwns))
      else if op == Relative && (!permit.configured || permit.fault || permit.enabled || permit.lifecycle != Idle
                                 || !idle || permit.stopPending)
      then Some(Rejected(NotIdle))
      else if op == Relative && s.GoalRefusal(payload.goal).Some? then Some(Rejected(s.GoalRefusal(payload.goal).value))
      else if op == Clear && (!permit.fault || payload.expectedFault != permit.faultSequence)
      then Some(Rejected(FaultMismatch))
      else if op != Stop && |ledger.places.queue| >= s.capacity then Some(Rejected(QueueFull))
      else None
    }

    function Admitted(s: Settings, id: Id, payload: Payload): Runtime {
      var p := if payload.operation in {Stop, Disable} then permit.Withdrawn() else permit;
      var r := Request(payload.operation, id, payload.disableAfter, p.stopGeneration, payload.goal);
      this.(permit := p.Record(r, payload.expectedFault), ledger := ledger.Accept(r, payload, s.history))
    }

    /** `submit`: the runtime after it, and its answer. */
    function Submitted(s: Settings, session: string, id: Id, payload: Payload): (Runtime, Answer) {
      var answer := Screened(s, session, id, payload);
      if answer.Some? then (this, answer.value) else (Admitted(s, id, payload), Accepted)
    }

    /** The transmit thread begins to take a fault down; `next` is what it does afterwards. */
    function Failed(next: Phase): Runtime {
      this.(permit := permit.FaultRequested(), phase := Faulting(next))
    }

    function Halted(disable: bool, next: Phase): Runtime {
      this.(permit := permit.StopBegun(), phase := Halting(disable, permit.stopGeneration, next))
    }

    function EventsHandedOut(): Runtime { this.(ledger := ledger.EventsTaken()) }

    function FaultReported(): Runtime { this.(permit := permit.FaultRequested()) }

    /** The manager hands its next request to the transmit thread. */
    function Scheduled(): Runtime {
      if !ledger.places.CanTake() then this
      else this.(ledger := ledger.Take(), job := ledger.Take().places.flying)
    }

    /** The manager collects the outcome it waited for. */
    function CollectedNow(s: Settings): Runtime {
      if ledger.places.flying.None? || ledger.places.outcome.None? then this
      else this.(ledger := ledger.Collected(s.history))
    }

    function ConfiguredWhen(verified: bool): Runtime {
      if !phase.Booting? then this
      else if verified then this.(permit := permit.Configured(), phase := Looping)
      else Failed(Looping)
    }

    function JobTaken(): Runtime {
      if phase.Looping? && job.Some? then this.(job := None, phase := Starting(job.value)) else this
    }

    function RefusedWith(code: Code): Runtime {
      if phase.Starting? && phase.request.operation in {Clear, Relative} && code != Ok then
        this.(phase := Answering(phase.request, code))
      else this
    }

    /** Enabling starts only for a current request on a confirmed configuration. */
    function EnableEntered(): Runtime {
      if !(phase.Starting? && phase.request.operation in {Enable, Relative}) then this
      else if !permit.Current(phase.request) || !permit.configured
      then this.(phase := Answering(phase.request, NotExecuted))
      else this.(permit := permit.EnableBegun(), phase := Enabling(phase.request, false))
    }

    function Rechecked(): Runtime {
      if !(phase.Enabling? && !phase.checked) then this
      else if !permit.Current(phase.request) then this.(phase := Answering(phase.request, NotExecuted))
      else this.(phase := Enabling(phase.request, true))
    }

    function Abandoned(): Runtime {
      if !(phase.Enabling? && phase.checked) then this
      else this.(permit := permit.EnableAbandoned(), phase := Answering(phase.request, InvalidConfiguration))
    }

    /** The permission is granted under the lock, if the request is still current. */
    function GrantDecided(): Runtime {
      if !(phase.Enabling? && phase.checked) then this
      else if !permit.Current(phase.request) then this.(phase := Answering(phase.request, NotExecuted))
      else
        this.(permit := permit.Granted(phase.request),
              phase := if phase.request.operation == Relative then Enabled(phase.request)
                       else Answering(phase.request, Ok))
    }

    /** A relative motion that is enabled becomes the active one, unless it was cancelled meanwhile. */
    function Launched(go: bool): Runtime {
      if !phase.Enabled? then this
      else if go && permit.Current(phase.request) && ledger.places.flying.Some? && ledger.places.outcome.None? then
        this.(ledger := ledger.Answered(Ok), phase := Looping)
      else Halted(true, Answering(phase.request, NotExecuted))
    }

    function ClearDone(s: Settings): Runtime {
      if !(phase.Starting? && phase.request.operation == Clear && s.mode != RM.Base) then this
      else this.(permit := permit.ClearCommitted(), phase := Answering(phase.request, Ok))
    }

    /** A stop or disable takes the active relative motion down with it. */
    function StopEntered(): Runtime {
      if !(phase.Starting? && phase.request.operation in {Stop, Disable}) then this
      else
        var r := phase.request;
        var answer := Answering(r, Ok);
        if ledger.places.active.None? then Halted(r.operation == Disable || r.disableAfter, answer)
        else
          this.(ledger := ledger.Detached()).Halted(r.operation == Disable || r.disableAfter, Cancelling(answer))
    }

    /** A guard or a stale command stops the pair in the control loop. */
    function LoopHalted(): Runtime {
      if phase.Looping? && ledger.places.active.None? then Halted(true, Looping) else this
    }

    function BrakeTicked(s: Settings): Runtime
      requires s.Valid()
    {
      if phase.Halting? && permit.enabled then this.(permit := permit.Braked(s.limits)) else this
    }

    function FaultMet(code: Code): Runtime {
      var next := phase.AfterFault(code);
      if next.Some? then Failed(next.value) else this
    }

    function FaultTakenDown(): Runtime {
      if phase.Faulting? then this.(permit := permit.FaultSettled(), phase := phase.next) else this
    }

    /** The end of a controlled stop: drivers go down on request, after a fault, or without a standstill. */
    function StopEnded(settled: bool, sawFault: bool, confirmed: bool): Runtime {
      if !phase.Halting? || (sawFault && !permit.fault) then this
      else
        var down := phase.disable || sawFault || !settled;
        var ok := confirmed || !down;
        this.(permit := permit.StopSettled(down, ok, phase.generation),
              phase := if ok then phase.next else phase.next.Failing())
    }

    function CancelPublished(s: Settings): Runtime {
      if phase.Cancelling? && ledger.places.ending.Some? then
        this.(ledger := ledger.Ended(NotExecuted, s.history), phase := phase.next)
      else this
    }

    /** The transmit thread ends the active relative motion, stopping first unless that is done. */
    function RelativeTakenDown(code: Code, stopped: bool): Runtime {
      if !(phase.Looping? && ledger.places.active.Some?) then this
      else if stopped then this.(ledger := ledger.Detached(), phase := Ending(code))
      else this.(ledger := ledger.Detached()).Halted(true, Ending(code))
    }

    function Observed(code: Code): Runtime {
      if phase.Ending? && phase.code == Ok then this.(phase := Ending(code)) else this
    }

    function EndPublished(s: Settings): Runtime {
      if phase.Ending? && ledger.places.ending.Some? then
        this.(ledger := ledger.Ended(phase.code, s.history), phase := Looping)
      else this
    }

    function Replied(): Runtime {
      if phase.Answering? && ledger.places.flying.Some? && ledger.places.outcome.None? then
        this.(ledger := ledger.Answered(phase.code), phase := Looping)
      else this
    }

    function AimedAt(speed: Pair): Runtime {
      if phase.Looping? && ledger.places.active.Some? then this.(permit := permit.Aimed(speed)) else this
    }

    /** One control tick. */
    function TickedNow(s: Settings, recent: bool): Runtime
      requires s.Valid()
    {
      if phase.Looping? && permit.enabled then this.(permit := permit.Ticked(s.limits, recent)) else this
    }

    /** An action that is not possible in a state changes nothing. */
    function Step(s: Settings, a: Action): Runtime
      requires s.Valid()
    {
      match a
      case Submit(session, id, payload) => Submitted(s, session, id, payload).0
      case TakeEvents => EventsHandedOut()
      case Command(speed) => this.(permit := permit.Commanded(speed, ledger.book.relativeActive))
      case RequestFault => FaultReported()
      case Schedule => Scheduled()
      case Collect => CollectedNow(s)
      case Configure(verified) => ConfiguredWhen(verified)
      case TakeJob => JobTaken()
      case Refuse(code) => RefusedWith(code)
      case BeginEnable => EnableEntered()
      case Recheck => Rechecked()
      case Abandon => Abandoned()
      case Grant => GrantDecided()
      case Launch(go) => Launched(go)
      case CommitClear => ClearDone(s)
      case BeginStop => StopEntered()
      case HaltLoop => LoopHalted()
      case BrakeTick => BrakeTicked(s)
      case Fault(code) => FaultMet(code)
      case SettleFault => FaultTakenDown()
      case EndStop(settled, sawFault, confirmed) => StopEnded(settled, sawFault, confirmed)
      case PublishCancelled => CancelPublished(s)
      case EndRelative(code, stopped) => RelativeTakenDown(code, stopped)
      case Observe(code) => Observed(code)
      case PublishEnd => EndPublished(s)
      case Reply => Replied()
      case Aim(speed) => AimedAt(speed)
      case Tick(recent) => TickedNow(s, recent)
    }
  }

  const Initial := Runtime(NoRequests, None, Booting, AtRest)

  function Run(s: Settings, r: Runtime, actions: seq<Action>): Runtime
    requires s.Valid()
    decreases |actions|
  {
    if actions == [] then r else Run(s, r, actions[..|actions| - 1]).Step(s, actions[|actions| - 1])
  }

  // ----- The invariant -----

  /** Every request still to be performed was logged when it was submitted. */
  predicate AllLogged(p: Places, log: seq<Mark>) {
    && (p.stop.Some? ==> Logged(log, p.stop.value))
    && (forall i | 0 <= i < |p.queue| :: Logged(log, p.queue[i]))
    && (p.flying.Some? ==> Logged(log, p.flying.value))
  }

  /** The manager waits for exactly the request that is scheduled or being performed. */
  predicate Tied(p: Places, job: Option<Request>, phase: Phase) {
    && (p.flying.Some? && p.outcome.None? <==> job.Some? || phase.Job().Some?)
    && (job.Some? ==> phase.Job().None? && p.flying == job)
    && (phase.Job().Some? ==> p.flying == phase.Job())
    && (p.ending.Some? <==> phase.Owes())
    && phase.WellFormed()
  }

  ghost predicate Inv(s: Settings, r: Runtime)
    requires s.Valid()
  {
    && RequestLedger.Inv(r.ledger, s.history, s.capacity)
    && MotionPermit.Inv(s.limits, r.permit)
    && Tied(r.ledger.places, r.job, r.phase)
    && AllLogged(r.ledger.places, r.permit.log)
    && (r.phase.NeedsConfigured() ==> r.permit.configured)
  }

  // ----- The log only grows -----

  lemma AllLoggedGrows(p: Places, log: seq<Mark>, more: seq<Mark>)
    requires AllLogged(p, log) && log <= more
    ensures AllLogged(p, more)
  {
  }

  // ----- Submission -----

  lemma AdmittedKeepsInv(s: Settings, r: Runtime, session: string, id: Id, payload: Payload)
    requires s.Valid() && Inv(s, r) && r.Screened(s, session, id, payload).None?
    ensures Inv(s, r.Admitted(s, id, payload))
  {
    hide RequestLedger.Inv;
    hide MotionPermit.Inv;
    hide Book.Pruned;
    hide Book.Published;
    hide Settings.GoalRefusal;
    hide Logged;
    var p := if payload.operation in {Stop, Disable} then r.permit.Withdrawn() else r.permit;
    var request := Request(payload.operation, id, payload.disableAfter, p.stopGeneration, payload.goal);
    if payload.operation in {Stop, Disable} { WithdrawKeepsInv(s.limits, r.permit); }
    RecordKeepsInv(s.limits, p, request, payload.expectedFault);
    AcceptKeepsInv(r.ledger, request, payload, s.history, s.capacity);
    AllLoggedGrows(r.ledger.places, r.permit.log, r.Admitted(s, id, payload).permit.log);
  }

  lemma SubmitKeepsInv(s: Settings, r: Runtime, session: string, id: Id, payload: Payload)
    requires s.Valid() && Inv(s, r)
    ensures Inv(s, r.Submitted(s, session, id, payload).0)
  {
    hide Inv;
    hide Runtime.Screened;
    hide Runtime.Admitted;
    if r.Screened(s, session, id, payload).None? { AdmittedKeepsInv(s, r, session, id, payload); }
  }

  // ----- The manager -----

  lemma ScheduleKeepsInv(s: Settings, r: Runtime)
    requires s.Valid() && Inv(s, r)
    ensures Inv(s, r.Scheduled())
  {
    hide RequestLedger.Inv;
    hide MotionPermit.Inv;
    hide Logged;
    if r.ledger.places.CanTake() {
      TakeKeepsInv(r.ledger, s.history, s.capacity);
      OutcomeNeedsFlight(r.ledger, s.history, s.capacity);
    }
  }

  lemma OutcomeNeedsFlight(l: Ledger, history: nat, capacity: nat)
    requires RequestLedger.Inv(l, history, capacity)
    ensures l.places.outcome.Some? ==> l.places.flying.Some?
  {
  }

  lemma CollectKeepsRuntime(s: Settings, r: Runtime)
    requires s.Valid() && Inv(s, r)
    ensures Inv(s, r.CollectedNow(s))
  {
    hide RequestLedger.Inv;
    hide MotionPermit.Inv;
    hide Logged;
    hide Book.Pruned;
    hide Book.Published;
    if r.ledger.places.flying.Some? && r.ledger.places.outcome.Some? {
      CollectKeepsInv(r.ledger, s.history, s.capacity);
    }
  }

  // ----- The transmit thread -----

  /** A step of the permission that the ledger does not notice. */
  lemma PermitStepKeepsInv(s: Settings, r: Runtime, p: Permit, phase: Phase)
    requires s.Valid() && Inv(s, r) && MotionPermit.Inv(s.limits, p) && r.permit.log <= p.log
    requires phase.WellFormed() && phase.Job() == r.phase.Job() && phase.Owes() == r.phase.Owes()
    requires phase.NeedsConfigured() ==> p.configured
    ensures Inv(s, r.(permit := p, phase := phase))
  {
    hide RequestLedger.Inv;
    hide MotionPermit.Inv;
    hide Phase.Job;
    hide Phase.Owes;
    hide Phase.WellFormed;
    AllLoggedGrows(r.ledger.places, r.permit.log, p.log);
  }

  lemma FailKeepsInv(s: Settings, r: Runtime, next: Phase)
    requires s.Valid() && Inv(s, r)
    requires next.WellFormed() && next.Job() == r.phase.Job() && next.Owes() == r.phase.Owes()
    requires next.NeedsConfigured() ==> r.permit.configured
    ensures Inv(s, r.Failed(next))
  {
    hide MotionPermit.Inv;
    hide Inv;
    RuntimeKeepsPermit(s, r);
    FaultRequestKeepsInv(s.limits, r.permit);
    FaultLogGrows(r.permit);
    hide Permit.FaultRequested;
    PermitStepKeepsInv(s, r, r.permit.FaultRequested(), Faulting(next));
  }

  lemma FaultLogGrows(p: Permit)
    ensures p.log <= p.FaultRequested().log && p.FaultRequested().configured == p.configured
  {
  }

  lemma RuntimeKeepsPermit(s: Settings, r: Runtime)
    requires s.Valid() && Inv(s, r)
    ensures MotionPermit.Inv(s.limits, r.permit)
  {
  }

  lemma StopBegunKeepsInv(c: Limits, p: Permit)
    requires c.Valid() && MotionPermit.Inv(c, p)
    ensures MotionPermit.Inv(c, p.StopBegun())
  {
  }

  lemma AdmittedNow(c: Limits, p: Permit)
    requires c.Valid() && MotionPermit.Inv(c, p)
    ensures c.Admits(p.sent)
  {
  }

  lemma HaltKeepsInv(s: Settings, r: Runtime, disable: bool, next: Phase)
    requires s.Valid() && Inv(s, r)
    requires Halting(disable, 0, next).WellFormed() && next.Job() == r.phase.Job() && next.Owes() == r.phase.Owes()
    ensures Inv(s, r.Halted(disable, next))
  {
    StopBegunKeepsInv(s.limits, r.permit) by { RuntimeKeepsPermit(s, r); }
    hide MotionPermit.Inv;
    hide Inv;
    PermitStepKeepsInv(s, r, r.permit.StopBegun(), Halting(disable, r.permit.stopGeneration, next));
  }

  lemma EnableEnteredShape(r: Runtime)
    requires r.phase.WellFormed()
    ensures var next := r.EnableEntered().phase;
      && next.WellFormed() && next.Job() == r.phase.Job() && next.Owes() == r.phase.Owes()
      && (next.NeedsConfigured() ==> r.phase.NeedsConfigured() || r.permit.configured)
  {
  }

  lemma JobIsLogged(s: Settings, r: Runtime)
    requires s.Valid() && Inv(s, r) && r.phase.Job().Some?
    ensures Logged(r.permit.log, r.phase.Job().value)
  {
    hide Logged;
  }

  lemma EnableEnteredKeepsInv(s: Settings, r: Runtime)
    requires s.Valid() && Inv(s, r)
    ensures Inv(s, r.EnableEntered())
  {
    hide Inv;
    hide MotionPermit.Inv;
    EnablePermitKeeps(s, r);
    ShapeOf(s, r);
    hide Phase.WellFormed;
    PermitStepKeepsInv(s, r, r.EnableEntered().permit, r.EnableEntered().phase) by { EnableEnteredShape(r); }
  }

  lemma RecheckedKeepsInv(s: Settings, r: Runtime)
    requires s.Valid() && Inv(s, r)
    ensures Inv(s, r.Rechecked())
  {
    hide Inv;
    hide MotionPermit.Inv;
    RuntimeKeepsPermit(s, r);
    ShapeOf(s, r);
    if r.phase.Enabling? { PermitStepKeepsInv(s, r, r.permit, r.Rechecked().phase); }
  }

  lemma AbandonedKeepsInv(s: Settings, r: Runtime)
    requires s.Valid() && Inv(s, r)
    ensures Inv(s, r.Abandoned())
  {
  }

  lemma EnablePermitKeeps(s: Settings, r: Runtime)
    requires s.Valid() && Inv(s, r)
    ensures MotionPermit.Inv(s.limits, r.permit)
    ensures MotionPermit.Inv(s.limits, r.permit.EnableBegun()) && MotionPermit.Inv(s.limits, r.permit.EnableAbandoned())
  {
  }

  /** The parts of the invariant about the phase alone. */
  lemma ShapeOf(s: Settings, r: Runtime)
    requires s.Valid() && Inv(s, r)
    ensures r.phase.WellFormed() && (r.phase.NeedsConfigured() ==> r.permit.configured)
  {
  }

  lemma GrantKeepsRuntime(s: Settings, r: Runtime)
    requires s.Valid() && Inv(s, r)
    ensures Inv(s, r.GrantDecided())
  {
    hide Inv;
    hide MotionPermit.Inv;
    RuntimeKeepsPermit(s, r);
    ShapeOf(s, r);
    if r.phase.Enabling? && r.phase.checked {
      JobIsLogged(s, r);
      if r.permit.Current(r.phase.request) {
        GrantKeepsInv(s.limits, r.permit, r.phase.request);
      }
      PermitStepKeepsInv(s, r, r.GrantDecided().permit, r.GrantDecided().phase);
    }
  }

  /** The manager gets its answer; `phase` then has no request of its own. */
  lemma AnswerKeepsRuntime(s: Settings, r: Runtime, code: Code)
    requires s.Valid() && Inv(s, r) && r.phase.Job().Some? && !r.phase.Owes()
    requires r.ledger.places.flying.Some? && r.ledger.places.outcome.None?
    ensures Inv(s, r.(ledger := r.ledger.Answered(code), phase := Looping))
  {
    hide MotionPermit.Inv;
    hide RequestLedger.Inv;
    hide Logged;
    AnswerKeepsInv(r.ledger, code, s.history, s.capacity);
  }

  lemma LaunchKeepsInv(s: Settings, r: Runtime, go: bool)
    requires s.Valid() && Inv(s, r)
    ensures Inv(s, r.Launched(go))
  {
    hide MotionPermit.Inv;
    hide RequestLedger.Inv;
    hide Logged;
    if r.phase.Enabled? {
      if go && r.permit.Current(r.phase.request) && r.ledger.places.flying.Some? && r.ledger.places.outcome.None? {
        AnswerKeepsRuntime(s, r, Ok);
      } else {
        HaltKeepsInv(s, r, true, Answering(r.phase.request, NotExecuted));
      }
    }
  }

  lemma ClearKeepsRuntime(s: Settings, r: Runtime)
    requires s.Valid() && Inv(s, r)
    ensures Inv(s, r.ClearDone(s))
  {
    hide Inv;
    hide MotionPermit.Inv;
    RuntimeKeepsPermit(s, r);
    ClearKeepsInv(s.limits, r.permit);
    if r.phase.Starting? && r.phase.request.operation == Clear {
      PermitStepKeepsInv(s, r, r.permit.ClearCommitted(), Answering(r.phase.request, Ok));
    }
  }

  /** Taking the active relative motion down, on the way to `phase`. */
  lemma DetachKeepsRuntime(s: Settings, r: Runtime, phase: Phase)
    requires s.Valid() && Inv(s, r) && r.ledger.places.active.Some? && !r.phase.Owes()
    requires phase.WellFormed() && phase.Job() == r.phase.Job() && phase.Owes() && !phase.NeedsConfigured()
    ensures Inv(s, r.(ledger := r.ledger.Detached(), phase := phase))
  {
    hide MotionPermit.Inv;
    hide RequestLedger.Inv;
    hide Phase.Job;
    hide Phase.Owes;
    hide Phase.WellFormed;
    hide Logged;
    DetachKeepsInv(r.ledger, s.history, s.capacity);
  }

  lemma BeginStopKeepsInv(s: Settings, r: Runtime)
    requires s.Valid() && Inv(s, r)
    ensures Inv(s, r.StopEntered())
  {
    hide Inv;
    if r.phase.Starting? && r.phase.request.operation in {Stop, Disable} {
      var request := r.phase.request;
      var disable := request.operation == Disable || request.disableAfter;
      if r.ledger.places.active.None? {
        HaltKeepsInv(s, r, disable, Answering(request, Ok));
      } else {
        DetachKeepsRuntime(s, r, Cancelling(Answering(request, Ok)));
        var detached := r.(ledger := r.ledger.Detached(), phase := Cancelling(Answering(request, Ok)));
        HaltKeepsInv(s, detached, disable, Cancelling(Answering(request, Ok)));
        assert detached.Halted(disable, Cancelling(Answering(request, Ok))) == r.StopEntered();
      }
    }
  }

  lemma EndRelativeKeepsInv(s: Settings, r: Runtime, code: Code, stopped: bool)
    requires s.Valid() && Inv(s, r)
    ensures Inv(s, r.RelativeTakenDown(code, stopped))
  {
    hide Inv;
    if r.phase.Looping? && r.ledger.places.active.Some? {
      DetachKeepsRuntime(s, r, Ending(code));
      if !stopped {
        var detached := r.(ledger := r.ledger.Detached(), phase := Ending(code));
        HaltKeepsInv(s, detached, true, Ending(code));
        assert detached.Halted(true, Ending(code)) == r.RelativeTakenDown(code, stopped);
      }
    }
  }

  lemma AfterFaultKeepsShape(p: Phase, code: Code)
    requires p.WellFormed() && p.AfterFault(code).Some?
    ensures var next := p.AfterFault(code).value;
      next.WellFormed() && next.Job() == p.Job() && next.Owes() == p.Owes()
        && (next.NeedsConfigured() ==> p.NeedsConfigured())
  {
  }

  /** The control loop and a controlled stop go on after a failure; everything else answers with its code. */
  lemma FaultLeadsTo(p: Phase, code: Code)
    requires p.AfterFault(code).Some?
    ensures p.Looping? || p.Halting? || p.Ending? || p.Starting? || p.Enabling?
    ensures p.AfterFault(code).value ==
      if p.Looping? || p.Halting? then p else if p.Ending? then Ending(code) else Answering(p.request, code)
  {
  }

  lemma FaultKeepsInv(s: Settings, r: Runtime, code: Code)
    requires s.Valid() && Inv(s, r)
    ensures Inv(s, r.FaultMet(code))
  {
    hide Inv;
    ShapeOf(s, r);
    var next := r.phase.AfterFault(code);
    if next.Some? {
      AfterFaultKeepsShape(r.phase, code);
      hide Phase.AfterFault;
      FailKeepsInv(s, r, next.value);
    }
  }

  lemma SettleKeepsInv(s: Settings, r: Runtime)
    requires s.Valid() && Inv(s, r)
    ensures Inv(s, r.FaultTakenDown())
  {
    hide Inv;
    hide MotionPermit.Inv;
    hide Limits.Admits;
    if r.phase.Faulting? {
      RuntimeKeepsPermit(s, r);
      ShapeOf(s, r);
      StillIsAdmitted(s.limits);
      QuietKeepsInv(s.limits, r.permit, r.permit.FaultSettled());
      PermitStepKeepsInv(s, r, r.permit.FaultSettled(), r.phase.next);
    }
  }

  lemma FailingKeepsShape(p: Phase)
    requires p.WellFormed() && (p.Looping? || p.Cancelling? || p.Ending? || p.Answering?)
    ensures p.Failing().WellFormed() && p.Failing().Job() == p.Job() && p.Failing().Owes() == p.Owes()
    ensures !p.Failing().NeedsConfigured()
  {
  }

  lemma EndStopKeepsInv(s: Settings, r: Runtime, settled: bool, sawFault: bool, confirmed: bool)
    requires s.Valid() && Inv(s, r)
    ensures Inv(s, r.StopEnded(settled, sawFault, confirmed))
  {
    hide Inv;
    hide MotionPermit.Inv;
    hide Phase.Failing;
    if r.phase.Halting? && (sawFault ==> r.permit.fault) {
      RuntimeKeepsPermit(s, r);
      ShapeOf(s, r);
      FailingKeepsShape(r.phase.next);
      var down := r.phase.disable || sawFault || !settled;
      StopSettleKeepsInv(s.limits, r.permit, down, confirmed || !down, r.phase.generation);
      var next := r.StopEnded(settled, sawFault, confirmed);
      PermitStepKeepsInv(s, r, next.permit, next.phase);
    }
  }

  lemma PublishKeepsInv(s: Settings, r: Runtime, code: Code, phase: Phase)
    requires s.Valid() && Inv(s, r) && r.ledger.places.ending.Some?
    requires phase.WellFormed() && phase.Job() == r.phase.Job() && !phase.Owes() && !phase.NeedsConfigured()
    ensures Inv(s, r.(ledger := r.ledger.Ended(code, s.history), phase := phase))
  {
    hide MotionPermit.Inv;
    hide RequestLedger.Inv;
    hide Phase.Job;
    hide Phase.Owes;
    hide Phase.WellFormed;
    hide Logged;
    hide Book.Pruned;
    hide Book.Published;
    EndKeepsInv(r.ledger, code, s.history, s.capacity);
  }

  lemma CancelPublishedKeepsInv(s: Settings, r: Runtime)
    requires s.Valid() && Inv(s, r)
    ensures Inv(s, r.CancelPublished(s))
  {
    ShapeOf(s, r);
    hide Inv;
    hide Ledger.Ended;
    if r.phase.Cancelling? && r.ledger.places.ending.Some? {
      PublishKeepsInv(s, r, NotExecuted, r.phase.next);
    }
  }

  lemma EndPublishedKeepsInv(s: Settings, r: Runtime)
    requires s.Valid() && Inv(s, r)
    ensures Inv(s, r.EndPublished(s))
  {
    hide Inv;
    hide Ledger.Ended;
    if r.phase.Ending? && r.ledger.places.ending.Some? {
      PublishKeepsInv(s, r, r.phase.code, Looping);
    }
  }

  lemma RepliedKeepsInv(s: Settings, r: Runtime)
    requires s.Valid() && Inv(s, r)
    ensures Inv(s, r.Replied())
  {
    hide Inv;
    hide Ledger.Answered;
    if r.phase.Answering? && r.ledger.places.flying.Some? && r.ledger.places.outcome.None? {
      AnswerKeepsRuntime(s, r, r.phase.code);
    }
  }

  lemma SpeedStepsKeepInv(s: Settings, r: Runtime, p: Permit)
    requires s.Valid() && Inv(s, r) && MotionPermit.Inv(s.limits, p) && p.log == r.permit.log
      && p.configured == r.permit.configured
    ensures Inv(s, r.(permit := p))
  {
  }

  lemma TickedKeepsInv(s: Settings, r: Runtime, recent: bool)
    requires s.Valid() && Inv(s, r)
    ensures Inv(s, r.TickedNow(s, recent))
  {
    RuntimeKeepsPermit(s, r);
    hide Inv;
    TickKeepsInv(s.limits, r.permit, recent);
    hide MotionPermit.Inv;
    hide Limits.Ramp;
    SpeedStepsKeepInv(s, r, r.permit.Ticked(s.limits, recent));
  }

  lemma BrakeTickedKeepsInv(s: Settings, r: Runtime)
    requires s.Valid() && Inv(s, r)
    ensures Inv(s, r.BrakeTicked(s))
  {
    RuntimeKeepsPermit(s, r);
    hide Inv;
    BrakeKeepsInv(s.limits, r.permit);
    hide MotionPermit.Inv;
    hide Brake;
    SpeedStepsKeepInv(s, r, r.permit.Braked(s.limits));
  }

  /** Setting the target, with or without leave, changes nothing the invariant speaks of. */
  lemma TargetKeepsInv(s: Settings, r: Runtime, speed: Pair)
    requires s.Valid() && Inv(s, r)
    ensures Inv(s, r.(permit := r.permit.Aimed(speed)))
  {
  }

  lemma ConfigureKeepsInv(s: Settings, r: Runtime, verified: bool)
    requires s.Valid() && Inv(s, r)
    ensures Inv(s, r.ConfiguredWhen(verified))
  {
    hide Inv;
    hide MotionPermit.Inv;
    hide Limits.Admits;
    if r.phase.Booting? {
      if verified {
        RuntimeKeepsPermit(s, r);
        AdmittedNow(s.limits, r.permit);
        QuietKeepsInv(s.limits, r.permit, r.permit.Configured());
        PermitStepKeepsInv(s, r, r.permit.Configured(), Looping);
      } else {
        FailKeepsInv(s, r, Looping);
      }
    }
  }

  /** The remaining steps of the transmit thread only move it on. */
  lemma PhaseStepsKeepInv(s: Settings, r: Runtime, a: Action)
    requires s.Valid() && Inv(s, r) && (a.TakeJob? || a.Refuse? || a.Observe? || a.HaltLoop?)
    ensures Inv(s, r.Step(s, a))
  {
    hide MotionPermit.Inv;
    hide RequestLedger.Inv;
    hide Logged;
    if a.HaltLoop? && r.phase.Looping? { HaltKeepsInv(s, r, true, Looping); }
  }

  lemma StepKeepsInv(s: Settings, r: Runtime, a: Action)
    requires s.Valid() && Inv(s, r)
    ensures Inv(s, r.Step(s, a))
  {
    hide Inv;
    hide Settings.GoalRefusal;
    hide Book.Pruned;
    hide Limits.Ramp;
    match a
    case Submit(session, id, payload) => SubmitKeepsInv(s, r, session, id, payload);
    case TakeEvents => TakeEventsKeepsInv(s, r);
    case Command(speed) => TargetKeepsInv(s, r, speed);
    case RequestFault => RequestFaultKeepsInv(s, r);
    case Schedule => ScheduleKeepsInv(s, r);
    case Collect => CollectKeepsRuntime(s, r);
    case Configure(verified) => ConfigureKeepsInv(s, r, verified);
    case TakeJob => PhaseStepsKeepInv(s, r, a);
    case Refuse(_) => PhaseStepsKeepInv(s, r, a);
    case BeginEnable => EnableEnteredKeepsInv(s, r);
    case Recheck => RecheckedKeepsInv(s, r);
    case Abandon => AbandonedKeepsInv(s, r);
    case Grant => GrantKeepsRuntime(s, r);
    case Launch(go) => LaunchKeepsInv(s, r, go);
    case CommitClear => ClearKeepsRuntime(s, r);
    case BeginStop => BeginStopKeepsInv(s, r);
    case HaltLoop => PhaseStepsKeepInv(s, r, a);
    case BrakeTick => BrakeTickedKeepsInv(s, r);
    case Fault(code) => FaultKeepsInv(s, r, code);
    case SettleFault => SettleKeepsInv(s, r);
    case EndStop(settled, sawFault, confirmed) => EndStopKeepsInv(s, r, settled, sawFault, confirmed);
    case PublishCancelled => CancelPublishedKeepsInv(s, r);
    case EndRelative(code, stopped) => EndRelativeKeepsInv(s, r, code, stopped);
    case Observe(_) => PhaseStepsKeepInv(s, r, a);
    case PublishEnd => EndPublishedKeepsInv(s, r);
    case Reply => RepliedKeepsInv(s, r);
    case Aim(speed) => TargetKeepsInv(s, r, speed);
    case Tick(recent) => TickedKeepsInv(s, r, recent);
  }

  lemma TakeEventsKeepsInv(s: Settings, r: Runtime)
    requires s.Valid() && Inv(s, r)
    ensures Inv(s, r.EventsHandedOut())
  {
  }

  lemma RequestFaultKeepsInv(s: Settings, r: Runtime)
    requires s.Valid() && Inv(s, r)
    ensures Inv(s, r.FaultReported())
  {
    hide Inv;
    hide MotionPermit.Inv;
    hide Permit.FaultRequested;
    RuntimeKeepsPermit(s, r);
    ShapeOf(s, r);
    FaultRequestKeepsInv(s.limits, r.permit);
    FaultLogGrows(r.permit);
    PermitStepKeepsInv(s, r, r.permit.FaultRequested(), r.phase);
  }

  lemma {:induction false} RunKeepsInv(s: Settings, actions: seq<Action>)
    requires s.Valid()
    ensures Inv(s, Run(s, Initial, actions))
    decreases |actions|
  {
    hide Inv;
    hide Runtime.Step;
    if actions == [] {
      InitialHolds(s);
    } else {
      RunKeepsInv(s, actions[..|actions| - 1]);
      StepKeepsInv(s, Run(s, Initial, actions[..|actions| - 1]), actions[|actions| - 1]);
    }
  }

  lemma InitialHolds(s: Settings)
    requires s.Valid()
    ensures Inv(s, Initial)
  {
  }

  // ----- Requests -----

  /**
   After any run an id is known exactly when it is pending or completed, never both; every
   acceptance of an id but the pending one has had its one final result; and the results
   stay within their bound.
   */
  lemma RequestsAreAccounted(s: Settings, actions: seq<Action>, id: Id)
    requires s.Valid()
    ensures var l := Run(s, Initial, actions).ledger;
      && l.places.Holds(id) + multiset(l.book.completed)[id] == (if id in l.book.results then 1 else 0)
      && (id in l.book.results ==> (l.book.results[id] == Pending <==> l.places.Holds(id) == 1))
      && multiset(l.book.accepted)[id] == Finals(l.book.terminal, id) + l.places.Holds(id)
      && |l.book.results| <= s.history + s.capacity + 3
  {
    hide Run;
    hide Places.Holds;
    hide Finals;
    RunKeepsInv(s, actions);
    var l := Run(s, Initial, actions).ledger;
    assert RequestLedger.Inv(l, s.history, s.capacity);
    ResultsAreBounded(l, s.history, s.capacity);
  }

  /** After any run a relative motion is flagged exactly when one is pending, and it is the only one. */
  lemma RelativeFlagTells(s: Settings, actions: seq<Action>, id: Id)
    requires s.Valid()
    ensures var l := Run(s, Initial, actions).ledger;
      l.places.HoldsRelative(id) == if l.book.relativeActive && id == l.book.relativeId then 1 else 0
  {
    hide Run;
    hide Places.HoldsRelative;
    RunKeepsInv(s, actions);
    assert RequestLedger.Inv(Run(s, Initial, actions).ledger, s.history, s.capacity);
  }

  /** Submitting a known id again with the same payload is answered, and only an acceptance changes anything. */
  lemma ResubmissionChangesNothing(s: Settings, r: Runtime, session: string, id: Id, payload: Payload)
    requires s.Valid() && Inv(s, r)
    ensures var next := r.Submitted(s, session, id, payload);
      && (next.1 != Accepted ==> next.0 == r)
      && (next.1 == Existing <==>
            && 1 <= |id| <= 128 && (payload.operation == Stop || session == s.session) && id in r.ledger.book.results
            && r.ledger.book.fingerprints[id] == payload)
      && (next.1 == Accepted ==> id !in r.ledger.book.results)
  {
    hide MotionPermit.Inv;
    hide Settings.GoalRefusal;
    hide Book.Pruned;
    hide Logged;
    assert r.ledger.book.fingerprints.Keys == r.ledger.book.results.Keys;
  }

  /**
   A request is accepted exactly when its id is new, it comes from this session, there is room, and its mode allows
   it.
   */
  lemma AcceptedIff(s: Settings, r: Runtime, session: string, id: Id, payload: Payload)
    requires s.Valid()
    ensures var op, p, l := payload.operation, r.permit, r.ledger;
      r.Submitted(s, session, id, payload).1 == Accepted <==>
        && 1 <= |id| <= 128 && id !in l.book.results
        && (op != Stop ==> session == s.session && |l.places.queue| < s.capacity)
        && (op in {Enable, Relative} ==>
              && p.configured && !p.fault && !p.enabled
              && !l.book.relativeActive && l.places.queue == [] && r.job.None?)
        && (op == Enable ==> p.lifecycle != Arming)
        && (op == Relative ==> p.lifecycle == Idle && !p.stopPending && s.GoalRefusal(payload.goal).None?)
        && (op == Clear ==> p.fault && payload.expectedFault == p.faultSequence)
  {
    hide Settings.GoalRefusal;
    hide Runtime.Admitted;
  }

  /**
   An accepted request is pending, once, under its own id. A stop takes the slot of its own; a stop or a disable
   has withdrawn the permission on return; a relative motion is the flagged one.
   */
  lemma AcceptedIsPending(s: Settings, r: Runtime, session: string, id: Id, payload: Payload)
    requires s.Valid() && Inv(s, r) && r.Submitted(s, session, id, payload).1 == Accepted
    ensures var op, next := payload.operation, r.Submitted(s, session, id, payload).0;
      && next.ledger.places.Holds(id) == 1 && id in next.ledger.book.results && next.ledger.book.results[id] == Pending
      && (op == Stop ==> next.ledger.places.stop.Some? && next.ledger.places.stop.value.id == id)
      && (op in {Stop, Disable} ==>
            !next.permit.permitted && next.permit.target == Still
              && next.permit.stopGeneration == r.permit.stopGeneration + 1)
      && (op == Relative ==> next.ledger.places.HoldsRelative(id) == 1 && next.ledger.book.relativeId == id)
  {
    AcceptedIff(s, r, session, id, payload);
    assert RequestLedger.Inv(r.ledger, s.history, s.capacity);
    hide Inv;
    hide RequestLedger.Inv;
    hide Runtime.Screened;
    hide Ledger.Accept;
    hide Places.Holds;
    hide Places.HoldsRelative;
    var p := if payload.operation in {Stop, Disable} then r.permit.Withdrawn() else r.permit;
    var request := Request(payload.operation, id, payload.disableAfter, p.stopGeneration, payload.goal);
    EnteredIsPending(r.ledger, request, payload, s.history, s.capacity);
  }

  /**
   What an acceptance does, and all it does: the request goes to the slot or to the end of the queue with the current
   generation, a superseded stop is cancelled, and a stop or disable withdraws the permission and clears the target.
   */
  lemma AcceptedEffects(s: Settings, r: Runtime, session: string, id: Id, payload: Payload)
    requires s.Valid() && r.Submitted(s, session, id, payload).1 == Accepted
    ensures var op, next := payload.operation, r.Submitted(s, session, id, payload).0;
      var request := Request(op, id, payload.disableAfter, next.permit.stopGeneration, payload.goal);
      var p, was, revoked := next.ledger.places, r.ledger.places, op in {Stop, Disable};
      && next.job == r.job && next.phase == r.phase
      && p == (if op == Stop then was.(stop := Some(request)) else was.(queue := was.queue + [request]))
      && next.permit == (if revoked
                         then r.permit.(stopGeneration := r.permit.stopGeneration + 1, permitted := false,
                                        target := Still, stopPending := true, log := next.permit.log)
                         else r.permit.(log := next.permit.log))
      && next.permit.log == r.permit.log + (if revoked then [Revoked] else [])
                              + [MotionPermit.Submitted(request, payload.expectedFault)]
      && next.ledger.book.accepted == r.ledger.book.accepted + [id]
      && next.ledger.book.terminal == r.ledger.book.terminal
                                        + (if op == Stop && was.stop.Some?
                                           then [Event(was.stop.value.id, Cancelled)] else [])
  {
    ScreeningAcceptsNothing(s, r, session, id, payload);
    hide Runtime.Screened;
    var p := if payload.operation in {Stop, Disable} then r.permit.Withdrawn() else r.permit;
    var request := Request(payload.operation, id, payload.disableAfter, p.stopGeneration, payload.goal);
    var b := r.ledger.book.Entered(request, payload);
    var c := if request.operation == Stop && r.ledger.places.stop.Some?
             then b.Published(r.ledger.places.stop.value, Cancelled) else b;
    ForgetDropsOldest(c, s.history);
    hide Book.Forget;
    assert r.permit.log + [] == r.permit.log && r.ledger.book.terminal + [] == r.ledger.book.terminal;
  }

  lemma ScreeningAcceptsNothing(s: Settings, r: Runtime, session: string, id: Id, payload: Payload)
    ensures r.Screened(s, session, id, payload) != Some(Accepted)
  {
    hide Settings.GoalRefusal;
  }

  /** What each reason of a rejection means. */
  ghost predicate Stands(s: Settings, r: Runtime, session: string, id: Id, payload: Payload, why: Reason) {
    var op, p, l := payload.operation, r.permit, r.ledger;
    match why
    case BadId => |id| == 0 || |id| > 128
    case SessionMismatch => op != Stop && session != s.session
    case PayloadMismatch => id in l.book.results && !(id in l.book.fingerprints && l.book.fingerprints[id] == payload)
    case Busy => op == Enable && (p.enabled || p.lifecycle == Arming || l.places.queue != [] || r.job.Some?)
    case NotReady => op == Enable && (!p.configured || p.fault)
    case RelativeOwns => op in {Enable, Relative} && l.book.relativeActive
    case NotIdle =>
      && op == Relative
      && !(p.configured && !p.fault && !p.enabled && p.lifecycle == Idle && !p.stopPending
           && l.places.queue == [] && r.job.None?)
    case FaultMismatch => op == Clear && !(p.fault && payload.expectedFault == p.faultSequence)
    case QueueFull => op != Stop && |l.places.queue| >= s.capacity
    case _ => op == Relative && s.GoalRefusal(payload.goal) == Some(why)
  }

  /** The order in which the reasons are looked at; the three about the goal share one place. */
  function Rank(why: Reason): nat {
    match why
    case BadId => 0
    case SessionMismatch => 1
    case PayloadMismatch => 2
    case Busy => 3
    case NotReady => 4
    case RelativeOwns => 5
    case NotIdle => 6
    case FaultMismatch => 8
    case QueueFull => 9
    case _ => 7
  }

  /** A submission is rejected for the first reason that stands against it, unless its id is known by then. */
  lemma RejectedIff(s: Settings, r: Runtime, session: string, id: Id, payload: Payload, why: Reason)
    requires s.Valid()
    ensures r.Submitted(s, session, id, payload).1 == Rejected(why) <==>
      && Stands(s, r, session, id, payload, why)
      && (Rank(why) > 2 ==> id !in r.ledger.book.results)
      && forall other: Reason | Rank(other) < Rank(why) :: !Stands(s, r, session, id, payload, other)
  {
    hide Runtime.Admitted;
    GoalReasons(s, payload.goal);
    hide Settings.GoalRefusal;
    var answer := r.Submitted(s, session, id, payload).1;
    if answer.Rejected? {
      assert Stands(s, r, session, id, payload, answer.why);
    }
  }

  lemma GoalReasons(s: Settings, goal: RawGoal)
    ensures s.GoalRefusal(goal).Some? ==> s.GoalRefusal(goal).value in {BadGoal, WrongRunner, GoalTooLarge}
  {
  }

  /** A goal is acceptable exactly when it is finite and its size, speed and time are within what its kind allows. */
  lemma GoalAcceptableIff(s: Settings, goal: RawGoal)
    requires s.Valid()
    ensures s.GoalRefusal(goal).None? <==>
      && goal.value.Finite? && goal.maxSpeed.Finite? && goal.timeout.Finite?
      && 0.000001 <= Abs(goal.value.value) && 0.0 < goal.maxSpeed.value && 0.0 <= goal.timeout.value
      && (0.0 < s.maxTimeout ==> goal.timeout.value <= s.maxTimeout)
      && match goal.kind
         case 1 =>
           && s.mode != RM.Base && s.Geometry().Valid()
           && (0.0 < s.maxDistance ==> Abs(goal.value.value) <= s.maxDistance)
           && (0.0 < s.limits.linearSpeed ==> goal.maxSpeed.value <= s.limits.linearSpeed)
         case 2 =>
           && s.mode != RM.Base && s.Geometry().Valid()
           && (0.0 < s.maxYaw ==> Abs(goal.value.value) <= s.maxYaw)
           && (0.0 < s.limits.angularSpeed ==> goal.maxSpeed.value <= s.limits.angularSpeed)
         case 3 =>
           && s.mode == RM.Bench && (0.0 < s.benchTravel ==> Abs(goal.value.value) <= 0.8 * s.benchTravel)
           && goal.maxSpeed.value <= s.limits.wheelSpeed
         case _ => false
  {
  }

  function KindOf(goal: RawGoal): RM.Kind {
    if goal.kind == 1 then RM.Distance else if goal.kind == 2 then RM.Turn else RM.WheelAngle
  }

  /** A relative goal that passes submission meets what planning its motion needs. */
  lemma AcceptedGoalCanBePlanned(s: Settings, goal: RawGoal)
    requires s.Valid() && s.GoalRefusal(goal).None?
    ensures goal.value.Finite? && goal.maxSpeed.Finite? && goal.timeout.Finite?
    ensures RM.Suits(KindOf(goal), s.Geometry()) && 0.0 < goal.maxSpeed.value && 0.0 <= goal.timeout.value
      && goal.value.value != 0.0
  {
  }

  // ----- The order of requests -----

  /** Does this step give the manager its next request? */
  predicate HandsOut(r: Runtime, a: Action) { a.Schedule? && r.ledger.places.CanTake() }

  /** Is this step the acceptance of a stop? */
  predicate AcceptsStop(s: Settings, r: Runtime, a: Action) {
    a.Submit? && a.payload.operation == Stop && r.Screened(s, a.session, a.id, a.payload).None?
  }

  /** Until the manager takes one, the slot holds the stop that was accepted last. */
  lemma SlotHoldsStop(s: Settings, r: Runtime, a: Action)
    requires s.Valid() && !HandsOut(r, a)
    ensures var stop := r.Step(s, a).ledger.places.stop;
      if AcceptsStop(s, r, a) then stop.Some? && stop.value.operation == Stop && stop.value.id == a.id
      else stop == r.ledger.places.stop
  {
    hide Book.Pruned;
    hide Limits.Ramp;
    hide Brake;
    hide Runtime.Screened;
    hide Phase.AfterFault;
    hide Phase.Failing;
  }

  /** The id of the stop accepted last in a run, or the one that waited before. */
  function LastStop(s: Settings, r: Runtime, actions: seq<Action>): Option<Id>
    requires s.Valid()
    decreases |actions|
  {
    if actions == [] then if r.ledger.places.stop.Some? then Some(r.ledger.places.stop.value.id) else None
    else
      var front, a := actions[..|actions| - 1], actions[|actions| - 1];
      if AcceptsStop(s, Run(s, r, front), a) then Some(a.id) else LastStop(s, r, front)
  }

  /** No request is handed out along the way. */
  predicate HandsOutNothing(s: Settings, r: Runtime, actions: seq<Action>)
    requires s.Valid()
  {
    forall k | 0 <= k < |actions| :: !HandsOut(Run(s, r, actions[..k]), actions[k])
  }

  lemma {:induction false} StopWaits(s: Settings, r: Runtime, actions: seq<Action>)
    requires s.Valid() && HandsOutNothing(s, r, actions)
    ensures var stop := Run(s, r, actions).ledger.places.stop;
      LastStop(s, r, actions) == if stop.Some? then Some(stop.value.id) else None
    decreases |actions|
  {
    hide Runtime.Step;
    hide HandsOut;
    hide AcceptsStop;
    if actions != [] {
      var front, a := actions[..|actions| - 1], actions[|actions| - 1];
      forall k | 0 <= k < |front|
        ensures !HandsOut(Run(s, r, front[..k]), front[k])
      {
        assert front[..k] == actions[..k];
      }
      StopWaits(s, r, front);
      assert !HandsOut(Run(s, r, actions[..|actions| - 1]), actions[|actions| - 1]);
      SlotHoldsStop(s, Run(s, r, front), a);
    }
  }

  /**
   A stop goes first: whatever else was accepted and however long the queue is, the first request that is handed
   out after a stop has been accepted is the stop accepted last, and the queue stays as it is.
   */
  lemma StopGoesFirst(s: Settings, r: Runtime, actions: seq<Action>)
    requires s.Valid() && HandsOutNothing(s, r, actions) && LastStop(s, r, actions).Some?
    requires HandsOut(Run(s, r, actions), Schedule)
    ensures var before := Run(s, r, actions); var next := before.Step(s, Schedule);
      && next.job.Some? && next.job == next.ledger.places.flying && Some(next.job.value.id) == LastStop(s, r, actions)
      && next.ledger.places.queue == before.ledger.places.queue && next.ledger.places.stop.None?
  {
    StopWaits(s, r, actions);
    ScheduleTakesStop(s, Run(s, r, actions));
    hide Run;
    hide LastStop;
    hide Runtime.Step;
  }

  lemma ScheduleTakesStop(s: Settings, r: Runtime)
    requires s.Valid() && HandsOut(r, Schedule) && r.ledger.places.stop.Some?
    ensures var next := r.Step(s, Schedule);
      && next.job == next.ledger.places.flying == r.ledger.places.stop
      && next.ledger.places.queue == r.ledger.places.queue && next.ledger.places.stop.None?
  {
  }

  /** The requests in the log that go through the queue, in the order of their submission. */
  function QueuedIn(log: seq<Mark>): seq<Request> {
    if log == [] then []
    else
      var last := log[|log| - 1];
      QueuedIn(log[..|log| - 1]) + if last.Submitted? && last.request.operation != Stop then [last.request] else []
  }

  /** The requests of the queue that a run has handed out, in that order. */
  function HandedOut(s: Settings, actions: seq<Action>): seq<Request>
    requires s.Valid()
    decreases |actions|
  {
    if actions == [] then []
    else
      var front, a := actions[..|actions| - 1], actions[|actions| - 1];
      var before := Run(s, Initial, front);
      var taken := before.Step(s, a).job;
      HandedOut(s, front) + if HandsOut(before, a) && taken.Some? && taken.value.operation != Stop then [taken.value]
                            else []
  }

  lemma QueuedAppend(log: seq<Mark>, m: Mark)
    ensures QueuedIn(log + [m]) ==
      QueuedIn(log) + if m.Submitted? && m.request.operation != Stop then [m.request] else []
  {
    assert (log + [m])[..|log|] == log;
  }

  /** No mark but a submission makes the queue longer. */
  lemma {:induction false} QuietMarks(log: seq<Mark>, more: seq<Mark>)
    requires forall i | 0 <= i < |more| :: !more[i].Submitted?
    ensures QueuedIn(log + more) == QueuedIn(log)
    decreases |more|
  {
    if more == [] {
      assert log + more == log;
    } else {
      var front := more[..|more| - 1];
      QuietMarks(log, front);
      assert log + more == log + front + [more[|more| - 1]];
      QueuedAppend(log + front, more[|more| - 1]);
    }
  }

  lemma LedgerKeepsQueue(l: Ledger, history: nat)
    ensures l.places.flying.Some? && l.places.outcome.Some? ==> l.Collected(history).places.queue == l.places.queue
    ensures l.places.flying.Some? && l.places.outcome.None? ==>
      forall code: Code :: l.Answered(code).places.queue == l.places.queue
    ensures l.places.ending.Some? ==> forall code: Code :: l.Ended(code, history).places.queue == l.places.queue
    ensures l.Detached().places.queue == l.places.queue && l.EventsTaken().places.queue == l.places.queue
  {
    hide Book.Pruned;
    hide Book.Published;
  }

  lemma QuietStepMarks(s: Settings, r: Runtime, a: Action) returns (more: seq<Mark>)
    requires s.Valid() && !a.Submit?
    ensures r.Step(s, a).permit.log == r.permit.log + more && forall i | 0 <= i < |more| :: !more[i].Submitted?
  {
    hide Ledger.Collected;
    hide Ledger.Answered;
    hide Ledger.Ended;
    hide Ledger.Detached;
    hide Ledger.EventsTaken;
    hide Ledger.Take;
    hide Runtime.Submitted;
    hide Limits.Ramp;
    hide Brake;
    hide Phase.AfterFault;
    hide Phase.Failing;
    var before, after := r.permit.log, r.Step(s, a).permit.log;
    assert before + [] == before;
    more := if after == before then [] else after[|before|..];
  }

  lemma QuietStepQueue(s: Settings, r: Runtime, a: Action)
    requires s.Valid() && !a.Submit? && !HandsOut(r, a)
    ensures r.Step(s, a).ledger.places.queue == r.ledger.places.queue
  {
    LedgerKeepsQueue(r.ledger, s.history);
    hide Ledger.Collected;
    hide Ledger.Answered;
    hide Ledger.Ended;
    hide Ledger.Detached;
    hide Ledger.EventsTaken;
    hide Runtime.Submitted;
    hide Limits.Ramp;
    hide Brake;
    hide Phase.AfterFault;
    hide Phase.Failing;
    hide Permit.FaultRequested;
    hide Permit.StopSettled;
  }

  lemma QuietStepKeepsQueue(s: Settings, r: Runtime, a: Action)
    requires s.Valid() && !a.Submit? && !HandsOut(r, a)
    ensures r.Step(s, a).ledger.places.queue == r.ledger.places.queue
    ensures QueuedIn(r.Step(s, a).permit.log) == QueuedIn(r.permit.log)
  {
    QuietStepQueue(s, r, a);
    hide Runtime.Step;
    var more := QuietStepMarks(s, r, a);
    QuietMarks(r.permit.log, more);
  }

  lemma SubmissionJoinsQueue(s: Settings, r: Runtime, a: Action)
    requires s.Valid() && a.Submit?
    ensures var next := r.Step(s, a);
      exists more: seq<Request> ::
        && QueuedIn(next.permit.log) == QueuedIn(r.permit.log) + more
        && next.ledger.places.queue == r.ledger.places.queue + more
  {
    hide Book.Pruned;
    hide Book.Published;
    hide Runtime.Screened;
    var next := r.Step(s, a);
    if r.Screened(s, a.session, a.id, a.payload).Some? {
      assert QueuedIn(next.permit.log) == QueuedIn(r.permit.log) + [];
      assert next.ledger.places.queue == r.ledger.places.queue + [];
    } else {
      var p := if a.payload.operation in {Stop, Disable} then r.permit.Withdrawn() else r.permit;
      var request := Request(a.payload.operation, a.id, a.payload.disableAfter, p.stopGeneration, a.payload.goal);
      QueuedAppend(r.permit.log, Revoked);
      QueuedAppend(p.log, MotionPermit.Submitted(request, a.payload.expectedFault));
      var more := if request.operation != Stop then [request] else [];
      assert QueuedIn(p.log) == QueuedIn(r.permit.log) + [] == QueuedIn(r.permit.log);
      assert next.ledger.places.queue == r.ledger.places.queue + more;
    }
  }

  /**
   The queue is served in order: over any run, the queued requests that were handed out, followed by those that still
   wait, are exactly the accepted ones in the order of acceptance.
   */
  lemma {:induction false} QueueIsServedInOrder(s: Settings, actions: seq<Action>)
    requires s.Valid()
    ensures var r := Run(s, Initial, actions);
      HandedOut(s, actions) + r.ledger.places.queue == QueuedIn(r.permit.log)
    decreases |actions|
  {
    hide Runtime.Step;
    hide HandsOut;
    hide QueuedIn;
    hide Inv;
    if actions == [] {
      InitialQueue();
    } else {
      var front, a := actions[..|actions| - 1], actions[|actions| - 1];
      var before := Run(s, Initial, front);
      QueueIsServedInOrder(s, front);
      var next := before.Step(s, a);
      if HandsOut(before, a) {
        RunKeepsInv(s, front);
        HandOutTakesFront(s, before, a);
        if before.ledger.places.stop.None? {
          var queue := before.ledger.places.queue;
          assert queue == [queue[0]] + queue[1..];
        }
      } else if a.Submit? {
        SubmissionJoinsQueue(s, before, a);
        SubmissionHandsOutNothing(before, a);
        var more: seq<Request> :|
          && QueuedIn(next.permit.log) == QueuedIn(before.permit.log) + more
          && next.ledger.places.queue == before.ledger.places.queue + more;
        assert HandedOut(s, front) + (before.ledger.places.queue + more)
            == HandedOut(s, front) + before.ledger.places.queue + more;
      } else {
        QuietStepKeepsQueue(s, before, a);
      }
    }
  }

  lemma InitialQueue()
    ensures QueuedIn(Initial.permit.log) == [] == Initial.ledger.places.queue
  {
  }

  lemma SubmissionHandsOutNothing(r: Runtime, a: Action)
    requires a.Submit?
    ensures !HandsOut(r, a)
  {
  }

  lemma HandOutTakesFront(s: Settings, r: Runtime, a: Action)
    requires s.Valid() && Inv(s, r) && HandsOut(r, a)
    ensures var p, next := r.ledger.places, r.Step(s, a);
      && next.permit == r.permit && next.job.Some?
      && if p.stop.Some? then
           next.job == p.stop && next.job.value.operation == Stop && next.ledger.places.queue == p.queue
         else
           && p.queue != [] && next.job == Some(p.queue[0]) && next.job.value.operation != Stop
           && next.ledger.places.queue == p.queue[1..]
  {
    assert r.ledger.places.Sorted();
    hide Inv;
  }

  // ----- Permission -----

  /**
   After any run, a motion permission means enabled drivers, a confirmed configuration and no
   fault; and no stop, disable or fault was accepted since the very enable or relative request
   was submitted that the permission was granted to.
   */
  lemma PermissionIsUnrevoked(s: Settings, actions: seq<Action>)
    requires s.Valid()
    ensures var p := Run(s, Initial, actions).permit;
      p.permitted ==>
        && p.enabled && p.configured && !p.fault
        && p.grantedTo.Some? && p.grantedTo.value.operation in {Enable, Relative} && Unrevoked(p.log, p.grantedTo.value)
  {
    hide Run;
    hide Unrevoked;
    hide Logged;
    RunKeepsInv(s, actions);
    var p := Run(s, Initial, actions).permit;
    RuntimeKeepsPermit(s, Run(s, Initial, actions));
    if p.permitted { CurrentIsUnrevoked(s.limits, p, p.grantedTo.value); }
  }

  /** A permission is reached: an enable that nothing overtakes gets it. */
  lemma EnableIsGranted(s: Settings)
    requires s.Valid() && 1 <= s.capacity
    ensures var none := RawGoal(0, Finite(0.0), Finite(0.0), Finite(0.0));
      var waiting := Initial.Step(s, Configure(true)).Step(s, Submit(s.session, "a", Payload(Enable, false, 0, none)));
      var begun := waiting.Step(s, Schedule).Step(s, TakeJob).Step(s, BeginEnable);
      begun.Step(s, Recheck).Step(s, Grant).permit.permitted
  {
    var none := RawGoal(0, Finite(0.0), Finite(0.0), Finite(0.0));
    var a := Request(Enable, "a", false, 0, none);
    var waiting := Initial.Step(s, Configure(true)).Step(s, Submit(s.session, "a", Payload(Enable, false, 0, none)));
    assert waiting.ledger.places == NoRequests.places.(queue := [a]) && waiting.phase.Looping? && waiting.job.None?;
    assert waiting.permit.configured && waiting.permit.Current(a);
    EnableRuns(s, waiting, a);
  }

  lemma EnableRuns(s: Settings, r: Runtime, a: Request)
    requires s.Valid() && a.operation == Enable && r.phase.Looping? && r.job.None? && r.permit.configured
      && r.permit.Current(a)
    requires r.ledger.places == NoRequests.places.(queue := [a])
    ensures r.Step(s, Schedule).Step(s, TakeJob).Step(s, BeginEnable).Step(s, Recheck).Step(s, Grant).permit.permitted
  {
    assert r.ledger.places.CanTake();
    var taken := r.Step(s, Schedule).Step(s, TakeJob);
    assert taken.phase == Starting(a) && taken.permit == r.permit;
    var begun := taken.Step(s, BeginEnable);
    assert begun.phase == Enabling(a, false) && begun.permit.Current(a);
  }

  /** The permission is granted by one section only, to the request that is being performed there. */
  lemma PermissionRisesIff(s: Settings, r: Runtime, a: Action)
    requires s.Valid() && !r.permit.permitted
    ensures var next := r.Step(s, a).permit;
      && (next.permitted <==> a.Grant? && r.phase.Enabling? && r.phase.checked && r.permit.Current(r.phase.request))
      && next.grantedTo == if next.permitted then Some(r.phase.request) else r.permit.grantedTo
  {
    if a.Grant? {
    } else {
      NothingElseGrants(s, r, a);
    }
    hide Runtime.Step;
  }

  lemma AdmissionGrantsNothing(s: Settings, r: Runtime)
    requires !r.permit.permitted
    ensures forall id: Id, payload: Payload ::
      var next := r.Admitted(s, id, payload).permit; !next.permitted && next.grantedTo == r.permit.grantedTo
  {
    hide Ledger.Accept;
  }

  lemma NothingElseGrants(s: Settings, r: Runtime, a: Action)
    requires s.Valid() && !r.permit.permitted && !a.Grant?
    ensures !r.Step(s, a).permit.permitted && r.Step(s, a).permit.grantedTo == r.permit.grantedTo
  {
    hide Phase.AfterFault;
    hide Phase.Failing;
    hide Runtime.Admitted;
    AdmissionGrantsNothing(s, r);
    hide Ledger.Answered;
    hide Ledger.Detached;
    hide Limits.Ramp;
    hide Brake;
    hide Ledger.Accept;
    hide Ledger.Collected;
    hide Ledger.Ended;
    hide Runtime.Screened;
  }

  /** After any run the fault sequence counts the rising edges of the fault, however they came about. */
  lemma FaultSequenceCountsRises(s: Settings, actions: seq<Action>)
    requires s.Valid()
    ensures var p := Run(s, Initial, actions).permit;
      && p.faultSequence == Rises(p.log) && p.stopGeneration == Revocations(p.log)
      && Alternates(p.log) && (p.fault <==> Rises(p.log) == Falls(p.log) + 1)
  {
    hide Run;
    hide Unrevoked;
    hide Alternates;
    RunKeepsInv(s, actions);
    RuntimeKeepsPermit(s, Run(s, Initial, actions));
  }

  /** After any run the speeds sent keep all limits. */
  lemma SpeedsStayAdmitted(s: Settings, actions: seq<Action>)
    requires s.Valid()
    ensures s.limits.Admits(Run(s, Initial, actions).permit.sent)
  {
    hide Run;
    hide Limits.Admits;
    RunKeepsInv(s, actions);
    RuntimeKeepsPermit(s, Run(s, Initial, actions));
    AdmittedNow(s.limits, Run(s, Initial, actions).permit);
  }

  /** Is this a control tick with permission and a fresh command? */
  predicate Commanded(r: Runtime, a: Action) { a == Tick(true) && r.permit.permitted }

  /** What a step may do to the speeds sent: nothing, rest, a braking step, or on command a ramp to the target. */
  ghost predicate Glides(c: Limits, commanded: bool, x: Pair, target: Pair, y: Pair)
    requires c.Valid()
  {
    y == x || y == Still || y == Brake(c, x) || (commanded && y == c.Ramp(x, target))
  }

  lemma StepsGlide(s: Settings, r: Runtime, a: Action)
    requires s.Valid()
    ensures Glides(s.limits, Commanded(r, a), r.permit.sent, r.permit.target, r.Step(s, a).permit.sent)
  {
    hide Limits.Ramp;
    hide Book.Pruned;
    hide Settings.GoalRefusal;
    match a
    case Tick(recent) =>
      hide Brake;
      TickGlides(s.limits, r.permit, recent);
    case BrakeTick => hide Brake;
    case _ => hide Brake;
  }

  lemma TickGlides(c: Limits, p: Permit, recent: bool)
    requires c.Valid()
    ensures Glides(c, p.permitted && recent, p.sent, p.target, p.Ticked(c, recent).sent)
  {
  }

  /** Whatever happens but a tick on command, the faster wheel does not get faster. */
  lemma NoCommandNoSpeedUp(s: Settings, r: Runtime, a: Action)
    requires s.Valid() && !Commanded(r, a)
    ensures r.Step(s, a).permit.sent.Fastest() <= r.permit.sent.Fastest()
  {
    StepsGlide(s, r, a);
    BrakeContracts(s.limits, r.permit.sent);
    NotchPositive(s.limits);
    hide Brake;
    hide Notch;
    hide Runtime.Step;
  }

  /** Is this a tick of the control loop or of a controlled stop, with the drivers enabled? */
  predicate TakesTick(r: Runtime, a: Action) {
    r.permit.enabled && ((a.Tick? && r.phase.Looping?) || (a.BrakeTick? && r.phase.Halting?))
  }

  function TicksTaken(s: Settings, r: Runtime, actions: seq<Action>): nat
    requires s.Valid()
    decreases |actions|
  {
    if actions == [] then 0
    else
      var front := actions[..|actions| - 1];
      TicksTaken(s, r, front) + if TakesTick(Run(s, r, front), actions[|actions| - 1]) then 1 else 0
  }

  /** No tick of the stretch is taken on command: there is no permission, or the command is stale. */
  predicate Uncommanded(s: Settings, r: Runtime, actions: seq<Action>)
    requires s.Valid()
  {
    forall k | 0 <= k < |actions| :: !Commanded(Run(s, r, actions[..k]), actions[k])
  }

  lemma UncommandedStepBrakes(s: Settings, r: Runtime, a: Action)
    requires s.Valid() && !Commanded(r, a) && TakesTick(r, a)
    ensures r.Step(s, a).permit.sent.Fastest() <= Max(0.0, r.permit.sent.Fastest() - Notch(s.limits))
  {
    BrakeContracts(s.limits, r.permit.sent);
    hide Limits.Ramp;
    hide Notch;
    if a.Tick? { UncommandedTickBrakes(s.limits, r.permit, a.recent); }
  }

  /**
   Over any stretch of a run without a tick on command, with whatever else in between, every tick takes a notch off
   the faster wheel; so the pair rests once the notches cover its speed, permitted or not.
   */
  lemma {:induction false} UncommandedRunRests(s: Settings, r: Runtime, actions: seq<Action>)
    requires s.Valid() && Uncommanded(s, r, actions)
    ensures var last, delta := Run(s, r, actions).permit.sent, Mul(TicksTaken(s, r, actions) as real, Notch(s.limits));
      && last.Fastest() <= Max(0.0, r.permit.sent.Fastest() - delta)
      && (r.permit.sent.Fastest() <= delta ==> last == Still)
    decreases |actions|
  {
    hide Mul;
    hide Notch;
    hide Runtime.Step;
    hide Commanded;
    hide TakesTick;
    MulUnit(Notch(s.limits));
    FastestBounds(r.permit.sent);
    FastestBounds(Run(s, r, actions).permit.sent);
    if actions != [] {
      var front, a := actions[..|actions| - 1], actions[|actions| - 1];
      var before, ticks := Run(s, r, front), TicksTaken(s, r, front);
      forall k | 0 <= k < |front|
        ensures !Commanded(Run(s, r, front[..k]), front[k])
      {
        assert front[..k] == actions[..k];
      }
      UncommandedRunRests(s, r, front);
      NotchPositive(s.limits);
      MulSpread(Notch(s.limits), ticks as real, 1.0);
      assert !Commanded(Run(s, r, actions[..|actions| - 1]), actions[|actions| - 1]);
      if TakesTick(before, a) { UncommandedStepBrakes(s, before, a); } else { NoCommandNoSpeedUp(s, before, a); }
    }
    hide Pair.Fastest;
  }

  lemma GlideKeepsSign(c: Limits, commanded: bool, x: Pair, target: Pair, y: Pair, i: nat)
    requires c.Valid() && i < 2 && Glides(c, commanded, x, target, y)
    ensures Mul(x.At(i), y.At(i)) >= 0.0
  {
    hide Limits.Ramp;
    hide Mul;
    SignsAgree(x.At(i), y.At(i));
    if y == Brake(c, x) {
      RampKeepsSign(c, x, Still, i);
    } else if y != x && y != Still {
      RampKeepsSign(c, x, target, i);
    }
  }

  /** Between two moments of a run that drive a wheel in opposite directions lies one at exactly zero. */
  lemma {:induction false} SpeedPassesZero(s: Settings, actions: seq<Action>, i: nat, a: nat, b: nat) returns (z: nat)
    requires s.Valid() && i < 2 && a <= b <= |actions|
    requires Mul(Run(s, Initial, actions[..a]).permit.sent.At(i), Run(s, Initial, actions[..b]).permit.sent.At(i)) < 0.0
    ensures a < z < b && Run(s, Initial, actions[..z]).permit.sent.At(i) == 0.0
    decreases b - a
  {
    hide Mul;
    hide Runtime.Step;
    hide Glides;
    var start := Run(s, Initial, actions[..a]);
    if a == b {
      z := a;
      SignsAgree(start.permit.sent.At(i), start.permit.sent.At(i));
    } else {
      assert actions[..a + 1][..a] == actions[..a];
      StepsGlide(s, start, actions[a]);
      var next := Run(s, Initial, actions[..a + 1]);
      GlideKeepsSign(s.limits, Commanded(start, actions[a]), start.permit.sent, start.permit.target,
        next.permit.sent, i);
      var x, y, w := start.permit.sent.At(i), next.permit.sent.At(i), Run(s, Initial, actions[..b]).permit.sent.At(i);
      SignsAgree(x, w);
      SignsAgree(x, y);
      SignsAgree(y, w);
      if y == 0.0 {
        z := a + 1;
      } else {
        z := SpeedPassesZero(s, actions, i, a + 1, b);
      }
    }
  }

  // ----- What does not hold -----

  /** The manager is free and `queue` waits. */
  predicate Waits(r: Runtime, queue: seq<Request>) {
    r.phase.Looping? && r.job.None? && r.ledger.places == NoRequests.places.(queue := queue)
  }

  lemma ClearRuns(s: Settings, r: Runtime, a: Request, rest: seq<Request>)
    requires s.Valid() && s.mode != RM.Base && a.operation == Clear && Waits(r, [a] + rest)
    ensures var next := r.Step(s, Schedule).Step(s, TakeJob).Step(s, CommitClear);
      && next.permit == r.permit.ClearCommitted()
      && next.phase == Answering(a, Ok) && next.job.None?
      && next.ledger.places == NoRequests.places.(queue := rest, flying := Some(a))
  {
    assert ([a] + rest)[1..] == rest;
    assert r.ledger.places.CanTake();
  }

  lemma ReplyIsCollected(s: Settings, r: Runtime, a: Request, rest: seq<Request>)
    requires s.Valid() && a.operation == Clear && r.phase == Answering(a, Ok) && r.job.None?
    requires r.ledger.places == NoRequests.places.(queue := rest, flying := Some(a))
    ensures Waits(r.Step(s, Reply).Step(s, Collect), rest) && r.Step(s, Reply).Step(s, Collect).permit == r.permit
  {
    hide Book.Pruned;
    hide Book.Published;
  }

  lemma ClearIsAccepted(s: Settings, r: Runtime, queue: seq<Request>, id: Id, goal: RawGoal)
    requires s.Valid() && Waits(r, queue) && |queue| < s.capacity && r.permit.fault
    requires 1 <= |id| <= 128 && id !in r.ledger.book.results && r.ledger.book.completed == []
    ensures var next := r.Step(s, Submit(s.session, id, Payload(Clear, false, r.permit.faultSequence, goal)));
      && Waits(next, queue + [Request(Clear, id, false, r.permit.stopGeneration, goal)])
      && next.permit.fault && next.permit.faultSequence == r.permit.faultSequence
        && next.permit.stopGeneration == r.permit.stopGeneration
      && next.ledger.book.results == r.ledger.book.results[id := Pending] && next.ledger.book.completed == []
  {
  }

  /** Two clears for one fault: the second one takes away a later fault, which nobody has named. */
  lemma QueuedClearTakesLaterFault(s: Settings, none: RawGoal)
    requires s.Valid() && s.mode != RM.Base && 2 <= s.capacity
    ensures var named := Initial.Step(s, Configure(true)).Step(s, RequestFault)
                     .Step(s, Submit(s.session, "a", Payload(Clear, false, 1, none)))
                     .Step(s, Submit(s.session, "b", Payload(Clear, false, 1, none)));
      var later := named.Step(s, Schedule).Step(s, TakeJob).Step(s, CommitClear)
                        .Step(s, Reply).Step(s, Collect).Step(s, RequestFault);
      var final := later.Step(s, Schedule).Step(s, TakeJob).Step(s, CommitClear);
      && later.permit.fault && later.permit.faultSequence == 2
      && !final.permit.fault && final.permit.faultSequence == 2
  {
    var r1 := Initial.Step(s, Configure(true)).Step(s, RequestFault);
    assert Waits(r1, []) && r1.permit.fault && r1.permit.faultSequence == 1;
    hide Runtime.Step;
    ClearIsAccepted(s, r1, [], "a", none);
    var r2 := r1.Step(s, Submit(s.session, "a", Payload(Clear, false, 1, none)));
    var a, b := Request(Clear, "a", false, 1, none), Request(Clear, "b", false, 1, none);
    assert [] + [a] == [a];
    ClearIsAccepted(s, r2, [a], "b", none);
    var r3 := r2.Step(s, Submit(s.session, "b", Payload(Clear, false, 1, none)));
    ClearRuns(s, r3, a, [b]);
    var r4 := r3.Step(s, Schedule).Step(s, TakeJob).Step(s, CommitClear);
    ReplyIsCollected(s, r4, a, [b]);
    var r5 := r4.Step(s, Reply).Step(s, Collect);
    FaultArrives(s, r5);
    var r6 := r5.Step(s, RequestFault);
    assert [b] + [] == [b];
    ClearRuns(s, r6, b, []);
  }

  lemma FaultArrives(s: Settings, r: Runtime)
    requires s.Valid()
    ensures r.Step(s, RequestFault) == r.(permit := r.permit.FaultRequested())
  {
  }

  /** A second enable is accepted while the first one is about to run: it has left the queue and not yet begun. */
  lemma EnableAcceptedTwice(s: Settings)
    requires s.Valid() && 1 <= s.capacity
    ensures var none := RawGoal(0, Finite(0.0), Finite(0.0), Finite(0.0));
      var running := Initial.Step(s, Configure(true))
                            .Step(s, Submit(s.session, "a", Payload(Enable, false, 0, none)))
                            .Step(s, Schedule).Step(s, TakeJob);
      running.phase.Starting? && running.Submitted(s, s.session, "b", Payload(Enable, false, 0, none)).1 == Accepted
  {
    hide Limits.Ramp;
    hide Brake;
    var none := RawGoal(0, Finite(0.0), Finite(0.0), Finite(0.0));
    var a := Request(Enable, "a", false, 0, none);
    var r1 := Initial.Step(s, Configure(true)).Step(s, Submit(s.session, "a", Payload(Enable, false, 0, none)));
    assert r1.ledger.places.queue == [a];
    assert r1.Step(s, Schedule).ledger.places.queue == [];
  }

  /** What the phase of an enable tells about the permission. */
  predicate Arms(r: Runtime) {
    && r.phase.HaltsNoEnable()
    && (r.phase.Enabling? ==> r.permit.fault || r.permit.lifecycle == Arming)
    && (r.phase.AnswersEnabled() ==> r.permit.enabled)
    && (r.phase.Faulting? ==>
          r.permit.fault && !r.phase.next.Enabling? && !r.phase.next.Faulting? && !r.phase.next.AnswersEnabled())
  }

  lemma StepKeepsArms(s: Settings, r: Runtime, a: Action)
    requires s.Valid() && r.phase.WellFormed() && Arms(r)
    ensures Arms(r.Step(s, a))
  {
    hide Limits.Ramp;
    hide Brake;
    hide Ledger.Accept;
    hide Ledger.Collected;
    hide Ledger.Ended;
    hide Runtime.Screened;
    match a
    case EndStop(settled, sawFault, confirmed) => StopEndedKeepsArms(r, settled, sawFault, confirmed);
    case Fault(code) => FaultMetKeepsArms(r, code);
    case BeginStop =>
      if r.phase.Starting? {
        var answer := Answering(r.phase.request, Ok);
        assert answer.Job() == Some(r.phase.request) == Cancelling(answer).Job();
      }
    case _ =>
  }

  lemma FaultMetKeepsArms(r: Runtime, code: Code)
    requires r.phase.WellFormed() && Arms(r)
    ensures Arms(r.FaultMet(code))
  {
    var next := r.phase.AfterFault(code);
    if next.Some? {
      assert next.value.HaltsNoEnable();
      assert Faulting(next.value).HaltsNoEnable();
      assert r.FaultMet(code).phase == Faulting(next.value) && r.FaultMet(code).permit.fault;
    }
  }

  lemma StopEndedKeepsArms(r: Runtime, settled: bool, sawFault: bool, confirmed: bool)
    requires r.phase.WellFormed() && Arms(r)
    ensures Arms(r.StopEnded(settled, sawFault, confirmed))
  {
    if r.phase.Halting? {
      FailingKeepsShape(r.phase.next);
      if r.phase.next.Cancelling? {
        assert r.phase.next.Job() == r.phase.next.next.Job();
        assert r.phase.next.Failing().Job() == r.phase.next.Failing().next.Job();
      }
    }
  }

  lemma {:induction false} RunKeepsArms(s: Settings, actions: seq<Action>)
    requires s.Valid()
    ensures Arms(Run(s, Initial, actions))
    decreases |actions|
  {
    hide Inv;
    hide Runtime.Step;
    if actions != [] {
      var before := Run(s, Initial, actions[..|actions| - 1]);
      RunKeepsArms(s, actions[..|actions| - 1]);
      RunKeepsInv(s, actions[..|actions| - 1]);
      ShapeOf(s, before);
      StepKeepsArms(s, before, actions[|actions| - 1]);
    }
  }

  /** While a request is being enabled there is no permission, and nothing left to head for. */
  predicate ArmsAtRest(r: Runtime) { r.phase.Enabling? ==> !r.permit.permitted && r.permit.target == Still }

  lemma StepKeepsArmsAtRest(s: Settings, r: Runtime, a: Action)
    requires s.Valid() && r.phase.WellFormed() && Arms(r) && ArmsAtRest(r)
    ensures ArmsAtRest(r.Step(s, a))
  {
    hide Limits.Ramp;
    hide Brake;
    hide Ledger.Accept;
    hide Ledger.Collected;
    hide Ledger.Ended;
    hide Ledger.Answered;
    hide Ledger.Detached;
    hide Runtime.Screened;
    hide Phase.Failing;
    if a.EndStop? && r.phase.Halting? { FailingKeepsShape(r.phase.next); }
    if a.Fault? { FaultMetKeepsArms(r, a.code); }
  }

  lemma {:induction false} RunKeepsArmsAtRest(s: Settings, actions: seq<Action>)
    requires s.Valid()
    ensures ArmsAtRest(Run(s, Initial, actions))
    decreases |actions|
  {
    hide Inv;
    hide Arms;
    hide Runtime.Step;
    if actions != [] {
      var front := actions[..|actions| - 1];
      RunKeepsArmsAtRest(s, front);
      RunKeepsArms(s, front);
      RunKeepsInv(s, front);
      ShapeOf(s, Run(s, Initial, front));
      StepKeepsArmsAtRest(s, Run(s, Initial, front), actions[|actions| - 1]);
    }
  }

  /** After any run, a permission begins at rest: whatever was commanded before it was granted has no effect. */
  lemma GrantBeginsAtRest(s: Settings, actions: seq<Action>)
    requires s.Valid()
    ensures var r := Run(s, Initial, actions); var next := r.Step(s, Grant).permit;
      next.permitted && !r.permit.permitted ==> next.sent == Still && next.target == Still && next.lifecycle == Ready
  {
    RunKeepsArmsAtRest(s, actions);
    hide Run;
  }

  /** A fault falls exactly when a clear is carried out, and never in base mode: there only a restart helps. */
  lemma FaultFallsIff(s: Settings, r: Runtime, a: Action)
    requires s.Valid() && r.permit.fault
    ensures !r.Step(s, a).permit.fault <==>
      a.CommitClear? && r.phase.Starting? && r.phase.request.operation == Clear && s.mode != RM.Base
  {
    hide Limits.Ramp;
    hide Brake;
    hide Ledger.Accept;
    hide Ledger.Collected;
    hide Ledger.Ended;
    hide Ledger.Answered;
    hide Ledger.Detached;
    hide Runtime.Screened;
    hide Phase.AfterFault;
    hide Phase.Failing;
  }

  /** The target changes to rest, or to what is commanded under permission, or to the active relative motion's aim. */
  lemma TargetChangesOnlyBy(s: Settings, r: Runtime, a: Action)
    requires s.Valid() && r.Step(s, a).permit.target !in {r.permit.target, Still}
    ensures (a.Command? && r.permit.enabled && r.permit.permitted && !r.permit.fault && !r.ledger.book.relativeActive
             && r.Step(s, a).permit.target == a.speed)
      || (a.Aim? && r.phase.Looping? && r.ledger.places.active.Some? && r.Step(s, a).permit.target == a.speed)
  {
    hide Limits.Ramp;
    hide Brake;
    hide Ledger.Accept;
    hide Ledger.Collected;
    hide Ledger.Ended;
    hide Ledger.Answered;
    hide Ledger.Detached;
    hide Runtime.Screened;
    hide Phase.AfterFault;
    hide Phase.Failing;
  }

  /**
   After any run, while an enable is pending in the hands of manager or transmit thread, a new
   one is accepted exactly in two windows: before the pending one has begun, and after it has
   been turned down; and only if nothing else stands against it.
   */
  lemma SecondEnableAcceptedIff(s: Settings, actions: seq<Action>, pending: Request, id: Id, payload: Payload)
    requires s.Valid() && pending.operation == payload.operation == Enable
    requires var r := Run(s, Initial, actions);
      (r.job == Some(pending) || r.phase.Job() == Some(pending)) && 1 <= |id| <= 128 && id !in r.ledger.book.results
    ensures var r := Run(s, Initial, actions);
      r.Submitted(s, s.session, id, payload).1 == Accepted <==>
        && (r.phase.Starting? || (r.phase.Answering? && r.phase.code != Ok))
        && r.ledger.places.queue == [] && !r.ledger.book.relativeActive && 0 < s.capacity
        && r.permit.configured && !r.permit.fault && !r.permit.enabled && r.permit.lifecycle != Arming
  {
    hide Run;
    RunKeepsInv(s, actions);
    RunKeepsArms(s, actions);
    var r := Run(s, Initial, actions);
    assert Tied(r.ledger.places, r.job, r.phase);
    hide Inv;
    hide Runtime.Admitted;
    if r.phase.Halting? || r.phase.Cancelling? {
      assert r.phase.Job() == r.phase.next.Job();
    }
  }

  /**
   The drivers of a disabled pair are marked as enabled exactly by a grant, which follows their
   confirmation, and by a plain, settled stop that has seen no fault, which follows nothing.
   */
  lemma EnabledRisesIff(s: Settings, r: Runtime, a: Action)
    requires s.Valid() && !r.permit.enabled
    ensures r.Step(s, a).permit.enabled <==>
      || (a.Grant? && r.phase.Enabling? && r.phase.checked && r.permit.Current(r.phase.request))
      || (a.EndStop? && r.phase.Halting? && !r.phase.disable && a.settled && !a.sawFault)
  {
    hide Limits.Ramp;
    hide Brake;
    hide Ledger.Accept;
    hide Ledger.Collected;
    hide Ledger.Ended;
    hide Ledger.Answered;
    hide Ledger.Detached;
    hide Runtime.Screened;
    hide Phase.AfterFault;
    hide Phase.Failing;
  }

  /** A run in which nobody has asked to enable anything, and a plain stop marks the standing pair as enabled. */
  lemma StopMarksDisabledPairEnabled(s: Settings)
    requires s.Valid()
    ensures var none := RawGoal(0, Finite(0.0), Finite(0.0), Finite(0.0));
      var halting := Initial.Step(s, Configure(true)).Step(s, Submit(s.session, "a", Payload(Stop, false, 0, none)))
                            .Step(s, Schedule).Step(s, TakeJob).Step(s, BeginStop);
      !halting.permit.enabled && halting.Step(s, EndStop(true, false, true)).permit.enabled
  {
    var none := RawGoal(0, Finite(0.0), Finite(0.0), Finite(0.0));
    var r1 := Initial.Step(s, Configure(true)).Step(s, Submit(s.session, "a", Payload(Stop, false, 0, none)));
    assert r1.ledger.places.stop.Some? && r1.ledger.places.flying.None? && r1.ledger.places.active.None?;
    assert r1.phase.Looping? && r1.job.None? && !r1.permit.enabled;
    var r2 := r1.Step(s, Schedule).Step(s, TakeJob);
    assert r2.phase.Starting? && r2.ledger.places.active.None? && r2.permit == r1.permit;
    assert r2.phase.request.operation == Stop && !r2.phase.request.disableAfter;
    var r3 := r2.Step(s, BeginStop);
    assert r3.phase.Halting? && !r3.phase.disable && !r3.permit.enabled;
    hide Runtime.Step;
    EnabledRisesIff(s, r3, EndStop(true, false, true));
  }
}
