/**
 The wheel runtime as one object: its fields, and the sections that its threads run under
 the state lock. Each section is proved against the step of the same name in `WheelRuntime`,
 so all that holds of every run holds here. The methods after the sections put them together
 as the transmit thread does; wherever that thread holds no lock, `Others` lets the clients,
 the receiver and the manager do anything they can.
 */
module RuntimeObject {
  import opened Numbers
  import opened WheelMotion
  import opened Braking
  import opened Binary32
  import opened Can
  import opened RequestLedger
  import opened MotionPermit
  import opened WheelRuntime
  import RM = RelativeMotion

  class Object {
    const settings: Settings

    // requests
    var results: map<Id, Status>
    var fingerprints: map<Id, Payload>
    var completed: seq<Id>
    var events: seq<Event>
    var requests: seq<Request>
    var stopRequest: Option<Request>
    var job: Option<Request>
    var relativeActive: bool
    var relativeId: Id
    // held by the manager and by the transmit thread
    var flying: Option<Request>
    var outcome: Option<Code>
    var activeRelative: Option<Request>
    var cancelled: Option<Request>
    // permission, faults and speeds, with the log of what happened to them
    var state: Permit
    var owner: string
    // where the transmit thread is, and the history of the requests
    ghost var phase: Phase
    ghost var accepted: seq<Id>
    ghost var terminal: seq<Event>

    ghost function PlacesView(): Places
      reads this
    {
      Places(requests, stopRequest, flying, outcome, activeRelative, cancelled)
    }

    ghost function BookView(): Book
      reads this
    {
      Book(results, fingerprints, completed, events, relativeActive, relativeId, accepted, terminal)
    }

    ghost function View(): Runtime
      reads this
    {
      Runtime(Ledger(PlacesView(), BookView()), job, phase, state)
    }

    ghost predicate Valid()
      reads this
    {
      settings.Valid() && WheelRuntime.Inv(settings, View())
    }

    constructor (settings: Settings)
      requires settings.Valid()
      ensures Valid() && View() == Initial && this.settings == settings
    {
      this.settings := settings;
      results, fingerprints, completed, events, requests, stopRequest, job := map[], map[], [], [], [], None, None;
      relativeActive, relativeId, flying, outcome, activeRelative, cancelled := false, "", None, None, None, None;
      state, owner := AtRest, "";
      phase, accepted, terminal := Booting, [], [];
      new;
      InitialHolds(settings);
    }

    // ----- Requests -----

    /** The checks of a submission; the first that fails answers it. */
    method Screen(session: string, id: Id, payload: Payload) returns (answer: Option<Answer>)
      ensures answer == View().Screened(settings, session, id, payload)
    {
      hide Settings.GoalRefusal;
      var op := payload.operation;
      if |id| == 0 || |id| > 128 {
        return Some(Rejected(BadId));
      }
      if op != Stop && session != settings.session {
        return Some(Rejected(SessionMismatch));
      }
      if id in results {
        if !(id in fingerprints && fingerprints[id] == payload) {
          return Some(Rejected(PayloadMismatch));
        }
        return Some(Existing);
      }
      if op == Enable && (state.enabled || state.lifecycle == Arming || requests != [] || job.Some?) {
        return Some(Rejected(Busy));
      }
      if op == Enable && (!state.configured || state.fault) {
        return Some(Rejected(NotReady));
      }
      if (op == Enable || op == Relative) && relativeActive {
        return Some(Rejected(RelativeOwns));
      }
      if op == Relative {
        if !state.configured || state.fault || state.enabled || state.lifecycle != Idle || requests != [] || job.Some?
           || state.stopPending {
          return Some(Rejected(NotIdle));
        }
        var refusal := settings.GoalRefusal(payload.goal);
        if refusal.Some? {
          return Some(Rejected(refusal.value));
        }
      }
      if op == Clear && (!state.fault || payload.expectedFault != state.faultSequence) {
        return Some(Rejected(FaultMismatch));
      }
      if op != Stop && |requests| >= settings.capacity {
        return Some(Rejected(QueueFull));
      }
      return None;
    }

    /** Enters a request that passes the checks; a stop or disable withdraws the permission first. */
    method Submit(session: string, id: Id, payload: Payload) returns (answer: Answer)
      requires Valid()
      modifies this
      ensures Valid()
      ensures (View(), answer) == old(View()).Submitted(settings, session, id, payload)
    {
      hide WheelRuntime.Inv;
      hide Runtime.Screened;
      SubmitKeepsInv(settings, View(), session, id, payload);
      var screened := Screen(session, id, payload);
      if screened.Some? {
        return screened.value;
      }
      Admit(id, payload);
      return Accepted;
    }

    method Admit(id: Id, payload: Payload)
      modifies this
      ensures View() == old(View()).Admitted(settings, id, payload)
    {
      hide Ledger.Accept;
      if payload.operation == Stop || payload.operation == Disable {
        state := state.(stopGeneration := state.stopGeneration + 1, permitted := false, target := Still,
                        stopPending := true, log := state.log + [Revoked]);
      }
      var request := Request(payload.operation, id, payload.disableAfter, state.stopGeneration, payload.goal);
      state := state.(log := state.log + [MotionPermit.Submitted(request, payload.expectedFault)]);
      Place(request, payload);
    }

    /** The stop slot takes a stop, superseding the one that waits there; the queue takes the rest. */
    method Place(r: Request, payload: Payload)
      modifies this`results, this`fingerprints, this`completed, this`events, this`accepted, this`terminal,
               this`relativeActive, this`relativeId, this`requests, this`stopRequest
      ensures Ledger(PlacesView(), BookView()) ==
                old(Ledger(PlacesView(), BookView())).Accept(r, payload, settings.history)
    {
      hide Book.Forget;
      hide Book.Published;
      hide Book.Pruned;
      hide Book.Entered;
      Enter(r, payload);
      if r.operation == Stop {
        if stopRequest.Some? {
          Publish(stopRequest.value, Cancelled);
        }
        stopRequest := Some(r);
      } else {
        requests := requests + [r];
      }
      PruneHistory();
    }

    method Enter(r: Request, payload: Payload)
      modifies this`results, this`fingerprints, this`accepted, this`relativeActive, this`relativeId
      ensures BookView() == old(BookView()).Entered(r, payload)
    {
      results, fingerprints, accepted := results[r.id := Pending], fingerprints[r.id := payload], accepted + [r.id];
      if r.operation == Relative {
        relativeActive, relativeId := true, r.id;
      }
    }

    method Publish(r: Request, status: Status)
      modifies this`results, this`events, this`completed, this`terminal, this`relativeActive
      ensures BookView() == old(BookView()).Published(r, status)
    {
      var event := Event(r.id, status);
      results := results[r.id := status];
      events, completed, terminal := events + [event], completed + [r.id], terminal + [event];
      if r.operation == Relative && relativeId == r.id {
        relativeActive := false;
      }
    }

    /** Completed results beyond the history are forgotten, oldest first; at most one event is. */
    method PruneHistory()
      modifies this`results, this`fingerprints, this`completed, this`events
      ensures BookView() == old(BookView()).Pruned(settings.history)
    {
      ghost var before := BookView();
      while |completed| > settings.history
        invariant BookView().Forget(settings.history) == before.Forget(settings.history) && events == before.events
        decreases |completed|
      {
        results, fingerprints := results - {completed[0]}, fingerprints - {completed[0]};
        completed := completed[1..];
      }
      if |events| > settings.history {
        events := events[1..];
      }
    }

    method TakeEvents() returns (taken: seq<Event>)
      requires Valid()
      modifies this`events
      ensures Valid() && View() == old(View()).EventsHandedOut() && taken == old(events) && events == []
    {
      hide WheelRuntime.Inv;
      TakeEventsKeepsInv(settings, View());
      taken := events;
      events := [];
    }

    // ----- The manager -----

    /** The stop slot first, then the queue in order. */
    method ScheduleNext()
      requires Valid() && flying.None? && (stopRequest.Some? || requests != [])
      modifies this`requests, this`stopRequest, this`flying, this`job
      ensures Valid() && View() == old(View()).Scheduled()
      ensures flying == job && stopRequest.None?
      ensures if old(stopRequest).Some? then job == old(stopRequest) && requests == old(requests)
              else job == Some(old(requests)[0]) && requests == old(requests)[1..]
    {
      hide WheelRuntime.Inv;
      ScheduleKeepsInv(settings, View());
      if stopRequest.Some? {
        flying, stopRequest := stopRequest, None;
      } else {
        flying, requests := Some(requests[0]), requests[1..];
      }
      job := flying;
    }

    /** The outcome of a request is published, except that of a relative motion that has only started. */
    method CollectOutcome()
      requires Valid() && flying.Some? && outcome.Some?
      modifies this
      ensures Valid() && View() == old(View()).CollectedNow(settings)
      ensures flying.None? && outcome.None? && requests == old(requests) && stopRequest == old(stopRequest)
        && job == old(job) && activeRelative == old(activeRelative) && state == old(state)
      ensures old(flying).value.operation == Relative && old(outcome) == Some(Ok) ==> terminal == old(terminal)
      ensures old(flying).value.operation != Relative || old(outcome) != Some(Ok) ==>
        Ends(old(terminal), terminal, old(flying).value, old(outcome).value)
    {
      hide WheelRuntime.Inv;
      CollectKeepsRuntime(settings, View());
      hide Ledger.Finished;
      var r, code := flying.value, outcome.value;
      flying, outcome := None, None;
      if r.operation != Relative || code != Ok {
        Finish(r, code);
      }
    }

    method Finish(r: Request, code: Code)
      modifies this`results, this`fingerprints, this`events, this`completed, this`terminal, this`relativeActive
      ensures Ledger(PlacesView(), BookView()) ==
                old(Ledger(PlacesView(), BookView())).Finished(r, code, settings.history)
      ensures Ends(old(terminal), terminal, r, code)
      ensures r.id in results ==>
        results[r.id] == if code == Ok then Succeeded else if code == NotExecuted then Cancelled else Failed
    {
      FinishedTells(Ledger(PlacesView(), BookView()), r, code, settings.history);
      Publish(r, StatusOf(code));
      PruneHistory();
    }

    // ----- Faults -----

    /** Only a rising edge counts, and it withdraws the permission. */
    method RequestFault()
      requires Valid()
      modifies this`state
      ensures Valid() && View() == old(View()).FaultReported()
      ensures state == if old(state).fault then old(state)
                       else old(state).(fault := true, faultSequence := old(state).faultSequence + 1,
                         permitted := false, lifecycle := Faulted, stopPending := true,
                         stopGeneration := old(state).stopGeneration + 1, log := old(state).log + [Raised, Revoked])
    {
      hide WheelRuntime.Inv;
      RequestFaultKeepsInv(settings, View());
      if !state.fault {
        state := state.(fault := true, faultSequence := state.faultSequence + 1, permitted := false,
          lifecycle := Faulted);
        state := state.(stopPending := true, stopGeneration := state.stopGeneration + 1,
          log := state.log + [Raised, Revoked]);
      }
    }

    /** The first section of `fault` in the transmit thread, and where that thread goes on. */
    method MeetFault(code: Code)
      requires Valid() && phase.AfterFault(code).Some?
      modifies this`state, this`phase
      ensures Valid() && View() == old(View()).FaultMet(code)
      ensures state.fault && state.sent == old(state).sent && state.enabled == old(state).enabled
      ensures old(state).fault ==> state == old(state)
      ensures !old(state).fault ==>
        !state.permitted && state.lifecycle == Faulted && state.stopGeneration == old(state).stopGeneration + 1
      ensures phase == Faulting(if old(phase).Looping? || old(phase).Halting? then old(phase)
                                else if old(phase).Ending? then Ending(code)
                                else Answering(old(phase).request, code))
    {
      hide WheelRuntime.Inv;
      hide Phase.AfterFault;
      ghost var start := View();
      FaultKeepsInv(settings, start, code);
      FaultLeadsTo(phase, code);
      RequestFault();
      phase := Faulting(phase.AfterFault(code).value);
      assert View() == start.FaultMet(code);
    }

    /** The second section of `fault`, after the drivers were told to stop. */
    method SettleFault()
      requires Valid() && phase.Faulting?
      modifies this`state, this`phase
      ensures Valid() && View() == old(View()).FaultTakenDown()
      ensures state == old(state).(enabled := false, permitted := false, lifecycle := Faulted, sent := Still,
                                   target := Still, stopPending := false)
      ensures phase == old(phase).next
    {
      hide WheelRuntime.Inv;
      SettleKeepsInv(settings, View());
      state := state.(enabled := false, permitted := false, lifecycle := Faulted);
      state := state.(sent := Still, target := Still, stopPending := false);
      phase := phase.next;
    }

    // ----- The transmit thread -----

    /** The verified configuration is published, or its failure taken as a fault. */
    method Configure(verified: bool)
      requires Valid() && phase.Booting?
      modifies this`state, this`phase
      ensures Valid() && View() == old(View()).ConfiguredWhen(verified)
      ensures verified ==> phase == Looping && state == old(state).(configured := true, lifecycle := Idle)
      ensures !verified ==> phase == Faulting(Looping) && state.fault && state.configured == old(state).configured
    {
      hide WheelRuntime.Inv;
      ghost var start := View();
      ConfigureKeepsInv(settings, start, verified);
      if verified {
        state := state.(configured := true, lifecycle := Idle);
        phase := Looping;
      } else {
        RequestFault();
        phase := Faulting(Looping);
      }
      assert View() == start.ConfiguredWhen(verified);
    }

    method TakeJob() returns (taken: Option<Request>)
      requires Valid() && phase.Looping?
      modifies this`job, this`phase
      ensures Valid() && View() == old(View()).JobTaken() && taken == old(job)
      ensures if taken.Some? then phase == Starting(taken.value) else View() == old(View())
    {
      hide WheelRuntime.Inv;
      PhaseStepsKeepInv(settings, View(), WheelRuntime.TakeJob);
      taken := job;
      job := None;
      if taken.Some? {
        phase := Starting(taken.value);
      }
    }

    /** The first section of enabling; `begun` unless the request was overtaken. */
    method BeginEnable(r: Request) returns (begun: bool)
      requires Valid() && phase == Starting(r) && r.operation in {Enable, Relative}
      modifies this`state, this`phase
      ensures Valid() && View() == old(View()).EnableEntered()
      ensures phase == if begun then Enabling(r, false) else Answering(r, NotExecuted)
      ensures begun <==>
        r.generation == old(state).stopGeneration && !old(state).fault && old(state).configured
      ensures state == if begun then old(state).(lifecycle := Arming, permitted := false, target := Still)
                       else old(state)
    {
      hide WheelRuntime.Inv;
      EnableEnteredKeepsInv(settings, View());
      if r.generation != state.stopGeneration || state.fault || !state.configured {
        phase := Answering(r, NotExecuted);
        return false;
      }
      state := state.(lifecycle := Arming, permitted := false, target := Still);
      phase := Enabling(r, false);
      return true;
    }

    /** The middle section of enabling looks again whether the request was overtaken. */
    method Recheck(r: Request) returns (current: bool)
      requires Valid() && phase == Enabling(r, false)
      modifies this`phase
      ensures Valid() && View() == old(View()).Rechecked()
      ensures current <==> r.generation == state.stopGeneration && !state.fault
      ensures phase == if current then Enabling(r, true) else Answering(r, NotExecuted)
    {
      hide WheelRuntime.Inv;
      RecheckedKeepsInv(settings, View());
      current := r.generation == state.stopGeneration && !state.fault;
      phase := if current then Enabling(r, true) else Answering(r, NotExecuted);
    }

    /** Nothing is enabled near the end of an unverified raw range. */
    method Abandon(r: Request)
      requires Valid() && phase == Enabling(r, true)
      modifies this`state, this`phase
      ensures Valid() && View() == old(View()).Abandoned() && phase == Answering(r, InvalidConfiguration)
      ensures state == old(state).(lifecycle := Idle)
    {
      hide WheelRuntime.Inv;
      AbandonedKeepsInv(settings, View());
      state := state.(lifecycle := Idle);
      phase := Answering(r, InvalidConfiguration);
    }

    /** The last section of enabling grants the permission, if nothing has revoked the request. */
    method DecideGrant(r: Request) returns (granted: bool)
      requires Valid() && phase == Enabling(r, true)
      modifies this`state, this`phase, this`owner
      ensures Valid() && View() == old(View()).GrantDecided()
      ensures granted <==> r.generation == old(state).stopGeneration && !old(state).fault
      ensures state == if granted
                       then old(state).(enabled := true, permitted := true, lifecycle := Ready, sent := Still,
                                        grantedTo := Some(r))
                       else old(state)
      ensures owner == if granted then "" else old(owner)
      ensures phase == if !granted then Answering(r, NotExecuted)
                       else if r.operation == Relative then Enabled(r)
                       else Answering(r, Ok)
      ensures granted ==> state.enabled && state.permitted && state.grantedTo == Some(r) && Unrevoked(state.log, r)
    {
      hide WheelRuntime.Inv;
      GrantKeepsRuntime(settings, View());
      granted := r.generation == state.stopGeneration && !state.fault;
      if granted {
        PermittedIsUnrevoked(settings, View().GrantDecided());
        hide Unrevoked;
        state := state.(enabled := true, permitted := true, lifecycle := Ready, sent := Still, grantedTo := Some(r));
        owner := "";
        phase := if r.operation == Relative then Enabled(r) else Answering(r, Ok);
      } else {
        phase := Answering(r, NotExecuted);
      }
    }

    /** A clear or relative request is turned down before anything was enabled. */
    method Refuse(r: Request, code: Code)
      requires Valid() && phase == Starting(r) && r.operation in {Clear, Relative} && code != Ok
      modifies this`phase
      ensures Valid() && View() == old(View()).RefusedWith(code) && phase == Answering(r, code)
    {
      hide WheelRuntime.Inv;
      PhaseStepsKeepInv(settings, View(), WheelRuntime.Refuse(code));
      phase := Answering(r, code);
    }

    method CommitClear(r: Request)
      requires Valid() && phase == Starting(r) && r.operation == Clear && settings.mode != RM.Base
      modifies this`state, this`phase
      ensures Valid() && View() == old(View()).ClearDone(settings) && phase == Answering(r, Ok)
      ensures state == old(state).(fault := false, configured := true, enabled := false, permitted := false,
                                   lifecycle := Idle, log := state.log)
      ensures state.log == if old(state).fault then old(state).log + [Lowered] else old(state).log
    {
      hide WheelRuntime.Inv;
      ClearKeepsRuntime(settings, View());
      if state.fault {
        state := state.(log := state.log + [Lowered]);
      }
      state := state.(fault := false, configured := true, enabled := false, permitted := false, lifecycle := Idle);
      phase := Answering(r, Ok);
    }

    /** The opening of a controlled stop for a stop or disable request. */
    method BeginStop(r: Request) returns (disable: bool, generation: nat)
      requires Valid() && phase == Starting(r) && r.operation in {Stop, Disable}
      modifies this`state, this`phase, this`activeRelative, this`cancelled
      ensures Valid() && View() == old(View()).StopEntered()
      ensures state == old(state).(permitted := false, target := Still, lifecycle := Stopping)
      ensures generation == old(state).stopGeneration
      ensures disable <==> r.operation == Disable || r.disableAfter
      ensures var answer := Answering(r, Ok);
        phase == Halting(disable, generation, if old(activeRelative).Some? then Cancelling(answer) else answer)
      ensures activeRelative.None?
      ensures cancelled == if old(activeRelative).Some? then old(activeRelative) else old(cancelled)
    {
      hide WheelRuntime.Inv;
      BeginStopKeepsInv(settings, View());
      ghost var after := Answering(r, Ok);
      if activeRelative.Some? {
        cancelled, activeRelative := activeRelative, None;
        after := Cancelling(after);
      }
      disable := r.operation == Disable || r.disableAfter;
      generation := BeginHalt(disable, after);
    }

    /** The opening of a controlled stop from the control loop. */
    method HaltLoop() returns (generation: nat)
      requires Valid() && phase.Looping? && activeRelative.None?
      modifies this`state, this`phase
      ensures Valid() && View() == old(View()).LoopHalted()
      ensures state == old(state).(permitted := false, target := Still, lifecycle := Stopping)
      ensures generation == old(state).stopGeneration
      ensures phase == Halting(true, generation, Looping)
    {
      hide WheelRuntime.Inv;
      PhaseStepsKeepInv(settings, View(), WheelRuntime.HaltLoop);
      generation := BeginHalt(true, Looping);
    }

    method BeginHalt(disable: bool, ghost next: Phase) returns (generation: nat)
      modifies this`state, this`phase
      ensures generation == old(state).stopGeneration && phase == Halting(disable, generation, next)
      ensures state == old(state).(permitted := false, target := Still, lifecycle := Stopping)
    {
      generation := state.stopGeneration;
      state := state.(permitted := false, target := Still, lifecycle := Stopping);
      phase := Halting(disable, generation, next);
    }

    /** One braking tick of a controlled stop. */
    method BrakeTick()
      requires Valid() && phase.Halting? && state.enabled
      modifies this`state
      ensures Valid() && View() == old(View()).BrakeTicked(settings)
      ensures state == old(state).(sent := state.sent)
      ensures state.sent.Fastest() <= Max(0.0, old(state).sent.Fastest() - Notch(settings.limits))
    {
      BrakeContracts(settings.limits, state.sent);
      hide WheelRuntime.Inv;
      hide Notch;
      hide Limits.Ramp;
      BrakeTickedKeepsInv(settings, View());
      state := state.(sent := settings.limits.Ramp(state.sent, Still));
    }

    /** The closing section of a controlled stop; `stopped` is what telling the drivers to stop returned. */
    method EndStop(disable: bool, generation: nat, settled: bool, sawFault: bool, stopped: bool) returns (code: Code)
      requires Valid() && phase.Halting? && phase.disable == disable && phase.generation == generation
        && (sawFault ==> state.fault)
      modifies this`state, this`phase
      ensures Valid() && View() == old(View()).StopEnded(settled, sawFault, stopped)
      ensures code in {Ok, BusError} && phase == if code == Ok then old(phase).next else old(phase).next.Failing()
      ensures code == Ok ==> (disable || !settled ==> !state.enabled) && (state.enabled ==> settled)
      ensures state.sent == Still && !state.permitted && state.target == old(state).target
      ensures state.stopPending <==> old(state).stopPending && generation != old(state).stopGeneration
      ensures code == Ok <==> stopped || !(disable || sawFault || !settled)
      ensures state.enabled <==> code == Ok && !(disable || sawFault || !settled)
      ensures state.fault <==> old(state).fault || code != Ok
      ensures state.lifecycle == if state.fault then Faulted else if state.enabled then Ready else Idle
      ensures state.faultSequence ==
        if code != Ok && !old(state).fault then old(state).faultSequence + 1 else old(state).faultSequence
      ensures state.stopGeneration == old(state).stopGeneration && state.configured == old(state).configured
    {
      hide WheelRuntime.Inv;
      EndStopKeepsInv(settings, View(), settled, sawFault, stopped);
      hide Phase.Failing;
      var down := disable || sawFault || !settled;
      var ok := stopped || !down;
      Settle(down, ok, generation);
      hide Permit.StopSettled;
      phase := if ok then phase.next else phase.next.Failing();
      code := if ok then Ok else BusError;
    }

    /** What is known of the pair at the end of a stop; `down` when it told the drivers to stop, `ok` when they did. */
    method Settle(down: bool, ok: bool, generation: nat)
      modifies this`state
      ensures state == old(state).StopSettled(down, ok, generation)
      ensures state.sent == Still && !state.permitted && state.target == old(state).target
      ensures state.stopPending <==> old(state).stopPending && generation != old(state).stopGeneration
      ensures state.enabled <==> ok && !down
      ensures state.fault <==> old(state).fault || !ok
      ensures state.lifecycle == if state.fault then Faulted else if state.enabled then Ready else Idle
      ensures state.faultSequence ==
        if !ok && !old(state).fault then old(state).faultSequence + 1 else old(state).faultSequence
      ensures state.stopGeneration == old(state).stopGeneration && state.configured == old(state).configured
    {
      state := state.(enabled := !down && ok, permitted := false, sent := Still,
                      lifecycle := if state.fault then Faulted else if !down && ok then Ready else Idle);
      if generation == state.stopGeneration {
        state := state.(stopPending := false);
      }
      if !ok {
        if !state.fault {
          state := state.(faultSequence := state.faultSequence + 1, log := state.log + [Raised]);
        }
        state := state.(fault := true, lifecycle := Faulted);
      }
    }

    /** Publishes the relative motion that a stop cancelled. */
    method PublishCancelled()
      requires Valid() && phase.Cancelling? && cancelled.Some?
      modifies this
      ensures Valid() && View() == old(View()).CancelPublished(settings)
      ensures phase == old(phase).next && cancelled.None? && activeRelative == old(activeRelative)
        && state == old(state)
      ensures requests == old(requests) && stopRequest == old(stopRequest) && flying == old(flying) && job == old(job)
      ensures Ends(old(terminal), terminal, old(cancelled).value, NotExecuted)
    {
      hide WheelRuntime.Inv;
      CancelPublishedKeepsInv(settings, View());
      hide Ledger.Finished;
      var r := cancelled.value;
      cancelled := None;
      Finish(r, NotExecuted);
      phase := phase.next;
    }

    /** A relative motion that was enabled becomes the active one, which is the answer to its request. */
    method Launch(r: Request)
      requires Valid() && phase == Enabled(r) && state.Current(r)
      modifies this`activeRelative, this`outcome, this`phase
      ensures Valid() && View() == old(View()).Launched(true)
      ensures phase.Looping? && activeRelative == flying == Some(r) && outcome == Some(Ok)
      ensures cancelled == old(cancelled)
    {
      JobIsAwaited(settings, View());
      hide WheelRuntime.Inv;
      LaunchKeepsInv(settings, View(), true);
      activeRelative, outcome, phase := Some(r), Some(Ok), Looping;
    }

    /** A relative motion that was cancelled while it was enabled is stopped instead. */
    method CancelLaunch(r: Request) returns (generation: nat)
      requires Valid() && phase == Enabled(r)
      modifies this`state, this`phase
      ensures Valid() && View() == old(View()).Launched(false)
        && phase == Halting(true, generation, Answering(r, NotExecuted))
      ensures state == old(state).(permitted := false, target := Still, lifecycle := Stopping)
      ensures generation == state.stopGeneration
    {
      hide WheelRuntime.Inv;
      LaunchKeepsInv(settings, View(), false);
      generation := BeginHalt(true, Answering(r, NotExecuted));
    }

    /** Takes the active relative motion down, beginning a stop unless the drivers are down already. */
    method TakeRelativeDown(code: Code, stopped: bool) returns (generation: nat)
      requires Valid() && phase.Looping? && activeRelative.Some?
      modifies this`state, this`phase, this`activeRelative, this`cancelled
      ensures Valid() && View() == old(View()).RelativeTakenDown(code, stopped)
      ensures cancelled == old(activeRelative) && activeRelative.None?
      ensures state == if stopped then old(state)
                       else old(state).(permitted := false, target := Still, lifecycle := Stopping)
      ensures phase == if stopped then Ending(code) else Halting(true, generation, Ending(code))
    {
      hide WheelRuntime.Inv;
      EndRelativeKeepsInv(settings, View(), code, stopped);
      cancelled, activeRelative := activeRelative, None;
      generation := 0;
      if stopped {
        phase := Ending(code);
      } else {
        generation := BeginHalt(true, Ending(code));
      }
    }

    /** What the final observation of a relative motion found. */
    method Observe(code: Code)
      requires Valid() && phase == Ending(Ok)
      modifies this`phase
      ensures Valid() && View() == old(View()).Observed(code) && phase == Ending(code)
    {
      hide WheelRuntime.Inv;
      PhaseStepsKeepInv(settings, View(), WheelRuntime.Observe(code));
      phase := Ending(code);
    }

    method PublishEnd(code: Code)
      requires Valid() && phase == Ending(code) && cancelled.Some?
      modifies this
      ensures Valid() && View() == old(View()).EndPublished(settings)
      ensures phase == Looping && cancelled.None? && activeRelative == old(activeRelative) && state == old(state)
      ensures requests == old(requests) && stopRequest == old(stopRequest) && flying == old(flying) && job == old(job)
      ensures Ends(old(terminal), terminal, old(cancelled).value, code)
    {
      hide WheelRuntime.Inv;
      EndPublishedKeepsInv(settings, View());
      hide Ledger.Finished;
      var r := cancelled.value;
      cancelled := None;
      Finish(r, code);
      phase := Looping;
    }

    /** The job's result reaches the manager. */
    method Reply(r: Request, code: Code)
      requires Valid() && phase == Answering(r, code)
      modifies this`outcome, this`phase
      ensures Valid() && View() == old(View()).Replied() && phase.Looping? && flying == Some(r) && outcome == Some(code)
    {
      JobIsAwaited(settings, View());
      hide WheelRuntime.Inv;
      RepliedKeepsInv(settings, View());
      outcome, phase := Some(code), Looping;
    }

    // ----- Speeds -----

    predicate MayCommand(left: Double, right: Double, controllerWrite: bool, source: string)
      requires settings.Valid()
      reads this
    {
      && state.enabled && state.permitted && !state.fault && !relativeActive
      && left.Finite? && right.Finite?
      && Pair(left.value, right.value).Fastest() <= settings.limits.wheelSpeed + 0.000000001
      && controllerWrite == (settings.mode == RM.Base)
      && (!controllerWrite ==> source != "" && |source| <= 128 && owner in {"", source})
    }

    /** A command takes effect under permission, from its owner, scaled to the body's limits at unchanged curvature. */
    method Command(left: Double, right: Double, controllerWrite: bool, source: string) returns (taken: bool)
      requires Valid()
      modifies this`state, this`owner
      ensures Valid() && (taken <==> old(MayCommand(left, right, controllerWrite, source)))
      ensures taken ==> state == old(state).Aimed(state.target)
      ensures taken ==> owner == if controllerWrite then old(owner) else source
      ensures taken && settings.mode == RM.Bench ==> state.target == Pair(left.value, right.value)
      ensures taken && settings.mode != RM.Bench ==>
        var speed := Pair(left.value, right.value);
        state.target == speed.DividedBy(settings.limits.BodyScale(speed)) && settings.limits.BodyAdmits(state.target)
      ensures !taken ==> state == old(state) && owner == old(owner)
    {
      hide Over;
      hide WheelRuntime.Inv;
      if !state.enabled || !state.permitted || state.fault || relativeActive || !left.Finite? || !right.Finite? {
        return false;
      }
      var speed := Pair(left.value, right.value);
      if speed.Fastest() > settings.limits.wheelSpeed + 0.000000001 {
        return false;
      }
      if controllerWrite != (settings.mode == RM.Base) {
        return false;
      }
      if !controllerWrite {
        if source == "" || |source| > 128 || (owner != "" && source != owner) {
          return false;
        }
        owner := source;
      }
      var target := speed;
      if settings.mode != RM.Bench {
        BodyScaleIsLeast(settings.limits, speed, settings.limits.BodyScale(speed));
        target := speed.DividedBy(settings.limits.BodyScale(speed));
      }
      TargetKeepsInv(settings, View(), target);
      state := state.(target := target);
      return true;
    }

    /** The active relative motion sets its own target. */
    method Aim(speed: Pair)
      requires Valid() && phase.Looping? && activeRelative.Some?
      modifies this`state
      ensures Valid() && View() == old(View()).AimedAt(speed) && state == old(state).(target := speed)
    {
      hide WheelRuntime.Inv;
      TargetKeepsInv(settings, View(), speed);
      state := state.(target := speed);
    }

    /** One control tick of the transmit thread. */
    method Tick(recent: bool)
      requires Valid() && phase.Looping? && state.enabled
      modifies this`state
      ensures Valid() && View() == old(View()).TickedNow(settings, recent)
      ensures !(old(state).permitted && recent) ==>
        state.sent.Fastest() <= Max(0.0, old(state).sent.Fastest() - Notch(settings.limits))
      ensures old(state).permitted && recent ==> state.sent == settings.limits.Ramp(old(state).sent, old(state).target)
      ensures state == old(state).(sent := state.sent, lifecycle := state.lifecycle)
      ensures state.lifecycle == if Abs(state.sent.left) + Abs(state.sent.right) > 0.000001 then Moving else Ready
    {
      if !(state.permitted && recent) { UncommandedTickBrakes(settings.limits, state, recent); }
      TickedKeepsInv(settings, View(), recent);
      hide WheelRuntime.Inv;
      hide Limits.Ramp;
      hide Brake;
      var request := if state.permitted && recent then state.target else Still;
      var sent := settings.limits.Ramp(state.sent, request);
      state := state.(sent := sent, lifecycle := if Abs(sent.left) + Abs(sent.right) > 0.000001 then Moving else Ready);
    }

    // ----- What runs beside the transmit thread -----

    /** Any number of sections of the clients, the receiver and the manager, in any order. */
    method Others()
      requires Valid()
      modifies this
      ensures Valid() && Aside(old(View()), View())
    {
      hide WheelRuntime.Inv;
      hide Aside;
      ghost var start := View();
      AsideFirst(start);
      var sections: nat :| true;
      for section := 0 to sections
        invariant Valid() && Aside(start, View())
      {
        ghost var before := View();
        OneOther();
        AsideOnward(start, before, View());
      }
    }

    method OneOther()
      requires Valid()
      modifies this
      ensures Valid() && Aside(old(View()), View())
    {
      hide WheelRuntime.Inv;
      ghost var start := View();
      var which: nat :| true;
      if which == 0 {
        var session: string, id: Id, payload: Payload := *, *, *;
        SubmitIsAside(settings, start, session, id, payload);
        var answer := Submit(session, id, payload);
      } else if which == 1 {
        var left: Double, right: Double, controllerWrite: bool, source: string := *, *, *, *;
        var taken := Command(left, right, controllerWrite, source);
      } else if which == 2 {
        var events := TakeEvents();
      } else if which == 3 {
        RequestFault();
      } else if which == 4 && flying.None? && (stopRequest.Some? || requests != []) {
        ScheduleNext();
      } else if which == 5 && flying.Some? && outcome.Some? {
        CollectIsAside(settings, start);
        CollectOutcome();
      }
    }

    // ----- What the transmit thread makes of its sections -----

    /** `fault`: the latch, telling the drivers to stop, and what is known then. */
    method Fail(code: Code)
      requires Valid() && phase.AfterFault(code).Some?
      modifies this
      ensures Valid() && phase == old(phase).AfterFault(code).value
      ensures state.fault && !state.enabled && !state.permitted && state.sent == Still
      ensures state.configured == old(state).configured && activeRelative == old(activeRelative)
        && cancelled == old(cancelled)
    {
      hide WheelRuntime.Inv;
      hide Phase.AfterFault;
      MeetFault(code);
      Others();
      SettleFault();
    }

    /** Enabling for an enable or relative request; anything may be accepted between its sections. */
    method PerformEnable(r: Request) returns (code: Code)
      requires Valid() && phase == Starting(r) && r.operation in {Enable, Relative}
      modifies this
      ensures Valid() && activeRelative == old(activeRelative) && cancelled == old(cancelled)
      ensures code == Ok ==> phase == if r.operation == Relative then Enabled(r) else Answering(r, Ok)
      ensures code == Ok ==> state.enabled && state.permitted && state.grantedTo == Some(r) && Unrevoked(state.log, r)
      ensures code != Ok ==> phase == Answering(r, code)
    {
      hide WheelRuntime.Inv;
      hide Unrevoked;
      hide Runtime.EnableEntered;
      hide Runtime.Rechecked;
      var begun := BeginEnable(r);
      if !begun {
        return NotExecuted;
      }
      Others();
      code := ConfirmDisabled(r);
      if code != Ok {
        return;
      }
      Others();
      var current := Recheck(r);
      if !current {
        return NotExecuted;
      }
      Others();
      code := EnableDrivers(r);
    }

    /** A disabled pair has to confirm that first, and its position has to be continuous in the ground modes. */
    method ConfirmDisabled(r: Request) returns (code: Code)
      requires Valid() && phase == Enabling(r, false)
      modifies this
      ensures Valid() && activeRelative == old(activeRelative) && cancelled == old(cancelled)
      ensures phase == if code == Ok then Enabling(r, false) else Answering(r, code)
    {
      hide WheelRuntime.Inv;
      code := Ok;
      if !state.enabled {
        var continuous: bool := *;
        code := *;
        if code == Ok && !continuous && (settings.mode == RM.Base || settings.mode == RM.Relative) {
          code := StaleFeedback;
        }
        if code != Ok {
          Fail(code);
        }
      }
    }

    method EnableDrivers(r: Request) returns (code: Code)
      requires Valid() && phase == Enabling(r, true)
      modifies this
      ensures Valid() && activeRelative == old(activeRelative) && cancelled == old(cancelled)
      ensures code == Ok ==> phase == if r.operation == Relative then Enabled(r) else Answering(r, Ok)
      ensures code == Ok ==> state.enabled && state.permitted && state.grantedTo == Some(r) && Unrevoked(state.log, r)
      ensures code != Ok ==> phase == Answering(r, code)
    {
      hide WheelRuntime.Inv;
      hide Unrevoked;
      hide Runtime.Abandoned;
      hide Runtime.GrantDecided;
      var nearBoundary: bool := *;
      if settings.mode == RM.Commissioning && nearBoundary {
        Abandon(r);
        return InvalidConfiguration;
      }
      code := *;
      if code != Ok {
        Fail(code);
        return;
      }
      Others();
      var granted := DecideGrant(r);
      code := if granted then Ok else NotExecuted;
    }

    /**
     The body of a controlled stop: it brakes while enabled and fault-free, and then tells the drivers to stop if
     it must.
     */
    method FinishStop(disable: bool, generation: nat) returns (code: Code)
      requires Valid() && phase.Halting? && phase.disable == disable && phase.generation == generation
      modifies this
      ensures Valid() && code in {Ok, BusError}
      ensures phase == if code == Ok then old(phase).next else old(phase).next.Failing()
      ensures state.sent == Still && !state.permitted && (disable && code == Ok ==> !state.enabled)
      ensures activeRelative == old(activeRelative) && cancelled == old(cancelled)
    {
      hide WheelRuntime.Inv;
      hide Phase.Failing;
      ghost var halting := phase;
      var ticks: nat :| true;
      var resting := false;
      while 0 < ticks && !resting && state.enabled && !state.fault
        invariant Valid() && phase == halting && activeRelative == old(activeRelative) && cancelled == old(cancelled)
        decreases ticks
      {
        var guarded: bool := *;
        if guarded {
          Fail(BusError);
          break;
        }
        BrakeTick();
        var sent: Code := *;
        if sent != Ok {
          Fail(sent);
          break;
        }
        Others();
        resting := *;
        ticks := ticks - 1;
      }
      Others();
      var settled: bool, stopped: bool := *, *;
      var sawFault := state.fault;
      Others();
      code := EndStop(disable, generation, settled, sawFault, stopped);
    }

    /** A stop or disable; it takes the active relative motion down and publishes that once the pair has stopped. */
    method PerformStop(r: Request) returns (code: Code)
      requires Valid() && phase == Starting(r) && r.operation in {Stop, Disable}
      modifies this
      ensures Valid() && phase == Answering(r, code) && code in {Ok, BusError}
      ensures state.sent == Still && !state.permitted && activeRelative.None? && cancelled.None?
      ensures code == Ok && (r.operation == Disable || r.disableAfter) ==> !state.enabled
      ensures old(activeRelative).Some? ==> EndsWith(terminal, old(activeRelative).value, NotExecuted)
    {
      hide WheelRuntime.Inv;
      hide Runtime.StopEntered;
      hide Runtime.CancelPublished;
      hide Ends;
      hide EndsWith;
      NothingIsOwed(settings, View());
      var disable, generation := BeginStop(r);
      code := FinishStop(disable, generation);
      if cancelled.Some? {
        AnswerCancelled();
      }
    }

    /** Publishes the cancelled motion once the lock is free again. */
    method AnswerCancelled()
      requires Valid() && phase.Cancelling? && cancelled.Some?
      modifies this
      ensures Valid() && phase == old(phase).next && cancelled.None? && activeRelative == old(activeRelative)
      ensures state.sent == old(state).sent && state.enabled == old(state).enabled
        && (state.permitted ==> old(state).permitted)
      ensures EndsWith(terminal, old(cancelled).value, NotExecuted)
    {
      hide WheelRuntime.Inv;
      hide Runtime.CancelPublished;
      Others();
      PublishCancelled();
    }

    method PerformClear(r: Request) returns (code: Code)
      requires Valid() && phase == Starting(r) && r.operation == Clear
      modifies this
      ensures Valid() && phase == Answering(r, code) && activeRelative == old(activeRelative)
        && cancelled == old(cancelled)
      ensures code == Ok ==>
        state.configured && !state.enabled && !state.permitted && !state.fault
        && settings.mode != RM.Base
    {
      hide WheelRuntime.Inv;
      code := *;
      if settings.mode == RM.Base {
        code := NotExecuted;
      }
      Others();
      if code != Ok {
        Refuse(r, code);
      } else {
        CommitClear(r);
      }
    }

    /** A relative motion is planned, enabled and launched; its request is answered when it has started. */
    method PerformRelative(r: Request) returns (code: Code)
      requires Valid() && phase == Starting(r) && r.operation == Relative
      modifies this
      ensures Valid() && cancelled == old(cancelled)
      ensures code == Ok ==> phase.Looping? && activeRelative == Some(r) && flying == Some(r) && outcome == Some(Ok)
      ensures code != Ok ==> phase == Answering(r, code) && activeRelative == old(activeRelative)
    {
      hide WheelRuntime.Inv;
      hide Unrevoked;
      hide Runtime.RefusedWith;
      hide Runtime.Launched;
      var planned: Code := *;
      if !(r.generation == state.stopGeneration && !state.fault) {
        planned := NotExecuted;
      }
      if planned != Ok {
        Refuse(r, planned);
        return planned;
      }
      Others();
      code := PerformEnable(r);
      if code != Ok {
        return;
      }
      Others();
      code := LaunchOrStop(r);
    }

    /** The end of starting a relative motion: it becomes the active one, or is stopped because it was cancelled. */
    method LaunchOrStop(r: Request) returns (code: Code)
      requires Valid() && phase == Enabled(r)
      modifies this
      ensures Valid() && cancelled == old(cancelled) && code in {Ok, NotExecuted}
      ensures code == Ok ==>
        && phase.Looping? && activeRelative == Some(r) && flying == Some(r) && outcome == Some(Ok)
        && state == old(state) && r.generation == state.stopGeneration && !state.fault
      ensures code != Ok ==>
        phase == Answering(r, code) && activeRelative == old(activeRelative) && state.sent == Still && !state.permitted
    {
      hide WheelRuntime.Inv;
      hide Runtime.Launched;
      var alive: bool := *;
      if alive && r.generation == state.stopGeneration && !state.fault {
        Launch(r);
        code := Ok;
      } else {
        var generation := CancelLaunch(r);
        var stopped := FinishStop(true, generation);
        code := NotExecuted;
      }
    }

    /**
     Performs the job that waits, if one does. Whatever happens meanwhile, it is answered once, here; and
     when success is reported, no other thread can have undone more than the permission and the absence of a fault.
     */
    method RunJob() returns (taken: Option<Request>)
      requires Valid() && phase.Looping?
      modifies this
      ensures Valid() && phase.Looping? && taken == old(job)
      ensures taken.None? ==> View() == old(View())
      ensures taken.Some? ==> flying == taken && outcome.Some?
      ensures taken.Some? && outcome == Some(Ok) ==>
        match taken.value.operation
        case Enable => state.enabled && state.grantedTo == taken
        case Relative => activeRelative == taken
        case Clear => state.configured && !state.enabled && !state.permitted
        case Stop => state.sent == Still && !state.permitted && activeRelative.None?
          && (taken.value.disableAfter ==> !state.enabled)
        case Disable => state.sent == Still && !state.permitted && activeRelative.None? && !state.enabled
    {
      hide WheelRuntime.Inv;
      hide Runtime.JobTaken;
      hide Runtime.Replied;
      taken := TakeJob();
      if taken.None? {
        return;
      }
      var r := taken.value;
      var code := Perform(r);
      if r.operation != Relative || code != Ok {
        Others();
        Reply(r, code);
      }
    }

    /** Performs a request by its operation. */
    method Perform(r: Request) returns (code: Code)
      requires Valid() && phase == Starting(r)
      modifies this
      ensures Valid()
      ensures r.operation != Relative || code != Ok ==> phase == Answering(r, code)
      ensures r.operation == Relative && code == Ok ==>
        phase.Looping? && activeRelative == flying == Some(r) && outcome == Some(Ok)
      ensures r.operation == Enable && code == Ok ==> state.enabled && state.grantedTo == Some(r)
      ensures r.operation == Clear && code == Ok ==> state.configured && !state.enabled && !state.permitted
      ensures r.operation in {Stop, Disable} ==> state.sent == Still && !state.permitted && activeRelative.None?
      ensures r.operation in {Stop, Disable} && code == Ok && (r.operation == Disable || r.disableAfter) ==>
        !state.enabled
    {
      hide WheelRuntime.Inv;
      hide EndsWith;
      hide Unrevoked;
      match r.operation {
        case Enable => code := PerformEnable(r);
        case Relative => code := PerformRelative(r);
        case Clear => code := PerformClear(r);
        case _ => code := PerformStop(r);
      }
    }

    /** Ends the active relative motion: a stop unless that is done, the final observation, and its one result. */
    method EndRelative(code: Code, stopped: bool) returns (result: Code)
      requires Valid() && phase.Looping? && activeRelative.Some?
      modifies this
      ensures Valid() && phase.Looping? && activeRelative.None? && cancelled.None?
      ensures EndsWith(terminal, old(activeRelative).value, result)
      ensures code != Ok ==> result in {code, BusError} && (stopped ==> result == code)
      ensures !stopped ==> !state.permitted && state.sent == Still
      ensures stopped ==> NoneTheFaster(old(state), state)
    {
      hide WheelRuntime.Inv;
      hide Runtime.EndPublished;
      result := StopRelative(code, stopped);
      Others();
      result := ObserveEnd(result);
      Others();
      JobIsAwaited(settings, View());
      PublishEnd(result);
    }

    /** Takes the active relative motion down, and stops the pair unless that is done. */
    method StopRelative(code: Code, stopped: bool) returns (result: Code)
      requires Valid() && phase.Looping? && activeRelative.Some?
      modifies this
      ensures Valid() && phase == Ending(result) && activeRelative.None? && cancelled == old(activeRelative)
      ensures result == code || (!stopped && result == BusError)
      ensures if stopped then state == old(state) else !state.permitted && state.sent == Still
    {
      hide WheelRuntime.Inv;
      hide Runtime.RelativeTakenDown;
      var generation := TakeRelativeDown(code, stopped);
      result := code;
      if !stopped {
        var halted := FinishStop(true, generation);
        result := if halted == Ok then code else BusError;
      }
    }

    /** The final observation, which a failing poll turns into a fault. */
    method ObserveEnd(code: Code) returns (result: Code)
      requires Valid() && phase == Ending(code)
      modifies this
      ensures Valid() && phase == Ending(result) && activeRelative == old(activeRelative) && cancelled == old(cancelled)
      ensures code != Ok ==> result == code
      ensures NoneTheFaster(old(state), state)
    {
      hide WheelRuntime.Inv;
      result := *;
      var polled: Code := *;
      if code != Ok {
        result := code;
      } else if polled != Ok {
        Fail(polled);
        result := polled;
      } else {
        Observe(result);
      }
    }

    /** Stops and disables the pair from the control loop. */
    method StopLoop()
      requires Valid() && phase.Looping? && activeRelative.None?
      modifies this
      ensures Valid() && phase.Looping? && state.sent == Still && !state.permitted
    {
      hide WheelRuntime.Inv;
      var generation := HaltLoop();
      var code := FinishStop(true, generation);
    }

    /** One round of the transmit thread; its checks on feedback, time and guards may decide anything. */
    method TransmitRound()
      requires Valid() && phase.Looping?
      modifies this
      ensures Valid() && phase.Looping?
      ensures old(job).None? && old(state).fault && old(state).stopPending ==>
        state.fault && !state.enabled && !state.permitted && state.sent == Still && activeRelative.None?
    {
      hide WheelRuntime.Inv;
      hide Unrevoked;
      hide EndsWith;
      var job := RunJob();
      Others();
      if state.stopPending && state.fault {
        Fail(BusError);
        Others();
      }
      if state.fault {
        if activeRelative.Some? {
          var result := EndRelative(BusError, true);
        }
        return;
      }
      var trouble: bool := *;
      if trouble {
        Fail(BusError);
      } else if state.enabled {
        ControlTick();
      }
    }

    /** The part of a round that drives an enabled pair. */
    method ControlTick()
      requires Valid() && phase.Looping? && state.enabled
      modifies this
      ensures Valid() && phase.Looping?
      ensures !old(state).permitted ==> state.sent.Fastest() <= old(state).sent.Fastest()
    {
      hide WheelRuntime.Inv;
      hide EndsWith;
      hide Notch;
      NotchPositive(settings.limits);
      var outOfReserve: bool, guarded: bool, silent: bool, ends: bool := *, *, *, *;
      if outOfReserve || (activeRelative.None? && silent) {
        if activeRelative.Some? {
          var result := EndRelative(NotExecuted, false);
        } else {
          StopLoop();
        }
        return;
      }
      if guarded {
        Fail(BusError);
        return;
      }
      if activeRelative.Some? {
        if ends {
          var code: Code := *;
          var result := EndRelative(code, false);
          return;
        }
        var speed: Pair := *;
        Aim(speed);
      }
      Others();
      var recent: bool, sent: Code := *, *;
      Tick(recent);
      if sent != Ok {
        Fail(sent);
      }
    }

    /** The transmit thread for any number of rounds. */
    method TransmitLoop(rounds: nat)
      requires Valid() && phase.Booting?
      modifies this
      ensures Valid() && phase.Looping?
    {
      hide WheelRuntime.Inv;
      Others();
      var verified: bool := *;
      Configure(verified);
      if !verified {
        Others();
        SettleFault();
      }
      for round := 0 to rounds
        invariant Valid() && phase.Looping?
      {
        Others();
        TransmitRound();
      }
    }
  }

  /** Nothing has been enabled, permitted or sped up, and a fault stays latched. */
  predicate NoneTheFaster(a: Permit, b: Permit) {
    && b.sent in {a.sent, Still} && (b.enabled ==> a.enabled) && (b.permitted ==> a.permitted) && (a.fault ==> b.fault)
  }

  /** The last result of the history is that of this request. */
  predicate EndsWith(terminal: seq<Event>, r: Request, code: Code) {
    terminal != [] && Ends(terminal[..|terminal| - 1], terminal, r, code)
  }

  /** The history goes on with the one result of this request, as its outcome says. */
  predicate Ends(a: seq<Event>, b: seq<Event>, r: Request, code: Code) {
    b == a + [Event(r.id, if code == Ok then Succeeded else if code == NotExecuted then Cancelled else Failed)]
  }

  // ----- What the other threads leave alone -----

  /** What the transmit thread may rely on while the others run: they neither grant nor enable anything. */
  predicate Aside(a: Runtime, b: Runtime) {
    && b.phase == a.phase
    && b.ledger.places.active == a.ledger.places.active && b.ledger.places.ending == a.ledger.places.ending
    && b.permit.enabled == a.permit.enabled && b.permit.configured == a.permit.configured
      && b.permit.sent == a.permit.sent
    && b.permit.grantedTo == a.permit.grantedTo
    && (a.permit.fault ==> b.permit.fault) && (b.permit.permitted ==> a.permit.permitted)
    && (a.permit.stopPending ==> b.permit.stopPending)
    && a.permit.stopGeneration <= b.permit.stopGeneration
  }

  lemma AsideFirst(a: Runtime)
    ensures Aside(a, a)
  {
  }

  lemma AsideOnward(a: Runtime, b: Runtime, c: Runtime)
    requires Aside(a, b) && Aside(b, c)
    ensures Aside(a, c)
  {
  }

  lemma SubmitIsAside(s: Settings, r: Runtime, session: string, id: Id, payload: Payload)
    ensures Aside(r, r.Submitted(s, session, id, payload).0)
  {
    hide Runtime.Screened;
    hide Book.Pruned;
  }

  lemma CollectIsAside(s: Settings, r: Runtime)
    ensures Aside(r, r.CollectedNow(s))
  {
    hide Book.Pruned;
  }

  /** In the control loop no relative motion waits for its result; while a job starts, none does either. */
  lemma NothingIsOwed(s: Settings, r: Runtime)
    requires s.Valid() && WheelRuntime.Inv(s, r)
    ensures r.phase.Looping? || r.phase.Starting? ==> r.ledger.places.ending.None?
  {
  }

  lemma PermittedIsUnrevoked(s: Settings, r: Runtime)
    requires s.Valid() && WheelRuntime.Inv(s, r) && r.permit.permitted
    ensures r.permit.grantedTo.Some? && Unrevoked(r.permit.log, r.permit.grantedTo.value)
  {
    hide Logged;
    hide Unrevoked;
    hide Limits.Admits;
    CurrentIsUnrevoked(s.limits, r.permit, r.permit.grantedTo.value);
  }

  /** The manager waits for the request that the transmit thread works on, without an outcome yet. */
  lemma JobIsAwaited(s: Settings, r: Runtime)
    requires s.Valid() && WheelRuntime.Inv(s, r)
    ensures r.phase.Job().Some? ==> r.ledger.places.flying == r.phase.Job() && r.ledger.places.outcome.None?
    ensures r.ledger.places.ending.Some? <==> r.phase.Owes()
    ensures r.phase.WellFormed()
  {
  }
}
