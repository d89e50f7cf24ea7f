/**
 The motion permission of the wheel runtime: enabling, faults, and the stop generation that
 ties a permission to the request that asked for it.
 */
module MotionPermit {
  import opened Numbers
  import opened WheelMotion
  import opened Braking
  import opened Can
  import opened RequestLedger

  /** What has happened to the permission so far, in order. */
  datatype Mark = Submitted(request: Request, expectedFault: nat) | Revoked | Raised | Lowered

  datatype Lifecycle = Created | Idle | Arming | Ready | Moving | Stopping | Faulted

  /** `grantedTo` is the request that was granted the permission last. */
  datatype Permit = Permit(
    configured: bool, enabled: bool, permitted: bool, fault: bool, lifecycle: Lifecycle,
    faultSequence: nat, stopGeneration: nat, stopPending: bool, target: Pair, sent: Pair,
    grantedTo: Option<Request>, log: seq<Mark>)
  {
    function Configured(): Permit { this.(configured := true, lifecycle := Idle) }

    function Record(r: Request, expectedFault: nat): Permit { this.(log := log + [Submitted(r, expectedFault)]) }

    /** Accepting a stop or disable revokes the permission at once. */
    function Withdrawn(): Permit {
      this.(stopGeneration := stopGeneration + 1, permitted := false, target := Still, stopPending := true,
        log := log + [Revoked])
    }

    /** `request_fault`: only a rising edge does anything. */
    function FaultRequested(): Permit {
      if fault then this
      else
        this.(fault := true, faultSequence := faultSequence + 1, permitted := false, lifecycle := Faulted,
              stopPending := true, stopGeneration := stopGeneration + 1, log := log + [Raised, Revoked])
    }

    /** The second half of `fault`, after the drivers were told to stop. */
    function FaultSettled(): Permit {
      this.(enabled := false, permitted := false, lifecycle := Faulted, sent := Still, target := Still,
        stopPending := false)
    }

    /** Is the request still current, so that enabling may go on? */
    predicate Current(r: Request) { r.generation == stopGeneration && !fault }

    function EnableBegun(): Permit { this.(lifecycle := Arming, permitted := false, target := Still) }

    function EnableAbandoned(): Permit { this.(lifecycle := Idle) }

    function Granted(r: Request): Permit {
      this.(enabled := true, permitted := true, lifecycle := Ready, sent := Still, grantedTo := Some(r))
    }

    function ClearCommitted(): Permit {
      this.(fault := false, configured := true, enabled := false, permitted := false, lifecycle := Idle,
            log := if fault then log + [Lowered] else log)
    }

    function StopBegun(): Permit { this.(permitted := false, target := Still, lifecycle := Stopping) }

    /** The end of a controlled stop; `down` when it disabled the drivers, `confirmed` when they confirmed it. */
    function StopSettled(down: bool, confirmed: bool, generation: nat): Permit {
      var p := this.(enabled := !down && confirmed, permitted := false, sent := Still,
                     lifecycle := if fault then Faulted else if !down && confirmed then Ready else Idle,
                     stopPending := stopPending && generation != stopGeneration);
      if confirmed then p
      else if fault then p.(lifecycle := Faulted)
      else p.(fault := true, faultSequence := faultSequence + 1, lifecycle := Faulted, log := log + [Raised])
    }

    /** Takes the target of a command, when commands may take effect. */
    function Commanded(speed: Pair, relativeActive: bool): Permit {
      if enabled && permitted && !fault && !relativeActive then this.(target := speed) else this
    }

    function Aimed(speed: Pair): Permit { this.(target := speed) }

    /** One control tick; without permission or with a stale command it asks for zero. */
    function Ticked(c: Limits, recent: bool): Permit
      requires c.Valid()
    {
      var next := c.Ramp(sent, if permitted && recent then target else Still);
      this.(sent := next, lifecycle := if Abs(next.left) + Abs(next.right) > 0.000001 then Moving else Ready)
    }

    function Braked(c: Limits): Permit
      requires c.Valid()
    {
      this.(sent := Brake(c, sent))
    }
  }

  const AtRest := Permit(false, false, false, false, Created, 0, 0, false, Still, Still, None, [])

  // ----- The invariant -----

  function Revocations(log: seq<Mark>): nat {
    if log == [] then 0 else Revocations(log[..|log| - 1]) + if log[|log| - 1] == Revoked then 1 else 0
  }

  function Rises(log: seq<Mark>): nat {
    if log == [] then 0 else Rises(log[..|log| - 1]) + if log[|log| - 1] == Raised then 1 else 0
  }

  function Falls(log: seq<Mark>): nat {
    if log == [] then 0 else Falls(log[..|log| - 1]) + if log[|log| - 1] == Lowered then 1 else 0
  }

  /** The fault rises only when down, and falls only when up. */
  predicate Alternates(log: seq<Mark>) {
    forall n | 0 <= n <= |log| :: Falls(log[..n]) <= Rises(log[..n]) <= Falls(log[..n]) + 1
  }

  predicate Logged(log: seq<Mark>, r: Request) {
    exists k | 0 <= k < |log| :: log[k].Submitted? && log[k].request == r
  }

  /** The request was submitted, and no stop, disable or fault has been accepted since. */
  predicate Unrevoked(log: seq<Mark>, r: Request) {
    && Logged(log, r)
    && forall k, j | 0 <= k < j < |log| && log[k].Submitted? && log[k].request == r :: log[j] != Revoked
  }

  /** The permission belongs to a logged request for motion that is still of the current generation. */
  predicate HeldByCurrent(p: Permit) {
    && p.grantedTo.Some? && p.Current(p.grantedTo.value)
    && p.grantedTo.value.operation in {Enable, Relative} && Logged(p.log, p.grantedTo.value)
  }

  /** A request carries the number of revocations before it, and a clear the number of the fault it names. */
  predicate Stamped(log: seq<Mark>) {
    forall k | 0 <= k < |log| && log[k].Submitted? ::
      && log[k].request.generation == Revocations(log[..k])
      && (log[k].request.operation == Clear ==> log[k].expectedFault == Rises(log[..k]))
  }

  predicate Inv(c: Limits, p: Permit)
    requires c.Valid()
  {
    && (p.permitted ==> p.enabled && p.configured && !p.fault && HeldByCurrent(p))
    && p.stopGeneration == Revocations(p.log)
    && p.faultSequence == Rises(p.log)
    && Rises(p.log) == Falls(p.log) + (if p.fault then 1 else 0)
    && Alternates(p.log)
    && Stamped(p.log)
    && c.Admits(p.sent)
  }

  // ----- The log -----

  lemma CountsAppend(log: seq<Mark>, m: Mark)
    ensures Revocations(log + [m]) == Revocations(log) + if m == Revoked then 1 else 0
    ensures Rises(log + [m]) == Rises(log) + if m == Raised then 1 else 0
    ensures Falls(log + [m]) == Falls(log) + if m == Lowered then 1 else 0
  {
  }

  lemma AlternatesAppend(log: seq<Mark>, m: Mark)
    requires Alternates(log) && Falls(log + [m]) <= Rises(log + [m]) <= Falls(log + [m]) + 1
    ensures Alternates(log + [m])
  {
    hide Falls;
    hide Rises;
    var next := log + [m];
    forall n | 0 <= n <= |next|
      ensures Falls(next[..n]) <= Rises(next[..n]) <= Falls(next[..n]) + 1
    {
      if n <= |log| { assert next[..n] == log[..n]; } else { assert next[..n] == next; }
    }
  }

  lemma StampedAppend(log: seq<Mark>, m: Mark)
    requires Stamped(log)
    requires m.Submitted? ==>
      m.request.generation == Revocations(log) && (m.request.operation == Clear ==> m.expectedFault == Rises(log))
    ensures Stamped(log + [m])
  {
    hide Revocations;
    hide Rises;
    var next := log + [m];
    forall k | 0 <= k < |next| && next[k].Submitted?
      ensures next[k].request.generation == Revocations(next[..k])
      ensures next[k].request.operation == Clear ==> next[k].expectedFault == Rises(next[..k])
    {
      assert next[..k] == log[..k];
      assert log[..|log|] == log;
    }
  }

  lemma LoggedGrows(log: seq<Mark>, m: Mark, r: Request)
    requires Logged(log, r)
    ensures Logged(log + [m], r)
  {
    var k :| 0 <= k < |log| && log[k].Submitted? && log[k].request == r;
    assert (log + [m])[k] == log[k];
  }

  /** A count cannot stand still over a stretch of the log that contains a revocation, or a rise. */
  lemma {:induction false} CountsSince(log: seq<Mark>, k: nat)
    requires k <= |log|
    ensures Revocations(log[..k]) <= Revocations(log) && Rises(log[..k]) <= Rises(log)
    ensures Revocations(log[..k]) == Revocations(log) <==> forall j | k <= j < |log| :: log[j] != Revoked
    ensures Rises(log[..k]) == Rises(log) <==> forall j | k <= j < |log| :: log[j] != Raised
    decreases |log|
  {
    if k < |log| {
      var front := log[..|log| - 1];
      assert front[..k] == log[..k];
      CountsSince(front, k);
    } else {
      assert log[..k] == log;
    }
  }

  // ----- Every step keeps the invariant -----

  /** A step that leaves the log and the fault alone, and grants nothing. */
  lemma QuietKeepsInv(c: Limits, p: Permit, q: Permit)
    requires c.Valid() && Inv(c, p) && c.Admits(q.sent)
    requires q.log == p.log && q.fault == p.fault && q.stopGeneration == p.stopGeneration
      && q.faultSequence == p.faultSequence
    requires q.permitted ==> p.permitted && q.enabled && q.configured && q.grantedTo == p.grantedTo
    ensures Inv(c, q)
  {
  }

  /** Marking the log, with the counters kept up to date. */
  lemma MarkKeepsInv(c: Limits, p: Permit, q: Permit, m: Mark)
    requires c.Valid() && Inv(c, p) && c.Admits(q.sent) && q.log == p.log + [m]
    requires q.permitted ==> p.permitted && q.enabled && q.configured && !q.fault && q.grantedTo == p.grantedTo
    requires m == Revoked ==> !q.permitted
    requires q.stopGeneration == p.stopGeneration + if m == Revoked then 1 else 0
    requires q.faultSequence == p.faultSequence + if m == Raised then 1 else 0
    requires m == Raised ==> !p.fault && q.fault
    requires m == Lowered ==> p.fault && !q.fault
    requires m.Submitted? || m == Revoked ==> q.fault == p.fault
    requires m.Submitted? ==>
      m.request.generation == p.stopGeneration && (m.request.operation == Clear ==> m.expectedFault == p.faultSequence)
    ensures Inv(c, q)
  {
    hide Limits.Admits;
    hide Alternates;
    hide Stamped;
    hide Logged;
    CountsAppend(p.log, m);
    hide Revocations;
    hide Rises;
    hide Falls;
    AlternatesAppend(p.log, m);
    StampedAppend(p.log, m);
    if q.permitted { LoggedGrows(p.log, m, p.grantedTo.value); }
  }

  lemma RecordKeepsInv(c: Limits, p: Permit, r: Request, expectedFault: nat)
    requires c.Valid() && Inv(c, p) && r.generation == p.stopGeneration
    requires r.operation == Clear ==> expectedFault == p.faultSequence
    ensures Inv(c, p.Record(r, expectedFault))
    ensures Logged(p.Record(r, expectedFault).log, r)
  {
    MarkKeepsInv(c, p, p.Record(r, expectedFault), Submitted(r, expectedFault)) by { hide Limits.Admits; }
    hide Inv;
    var log := p.Record(r, expectedFault).log;
    assert log[|log| - 1] == Submitted(r, expectedFault);
  }

  lemma WithdrawKeepsInv(c: Limits, p: Permit)
    requires c.Valid() && Inv(c, p)
    ensures Inv(c, p.Withdrawn())
  {
    hide Limits.Admits;
    MarkKeepsInv(c, p, p.Withdrawn(), Revoked);
  }

  lemma FaultRequestKeepsInv(c: Limits, p: Permit)
    requires c.Valid() && Inv(c, p)
    ensures Inv(c, p.FaultRequested())
  {
    hide Limits.Admits;
    if !p.fault {
      var q := p.(fault := true, faultSequence := p.faultSequence + 1, permitted := false, log := p.log + [Raised]);
      MarkKeepsInv(c, p, q, Raised);
      assert p.FaultRequested().log == q.log + [Revoked];
      MarkKeepsInv(c, q, p.FaultRequested(), Revoked);
    }
  }

  lemma StopSettleKeepsInv(c: Limits, p: Permit, down: bool, confirmed: bool, generation: nat)
    requires c.Valid() && Inv(c, p)
    ensures Inv(c, p.StopSettled(down, confirmed, generation))
  {
    StillIsAdmitted(c);
    hide Limits.Admits;
    if !confirmed && !p.fault {
      MarkKeepsInv(c, p, p.StopSettled(down, confirmed, generation), Raised);
    } else {
      QuietKeepsInv(c, p, p.StopSettled(down, confirmed, generation));
    }
  }

  lemma ClearKeepsInv(c: Limits, p: Permit)
    requires c.Valid() && Inv(c, p)
    ensures Inv(c, p.ClearCommitted())
  {
    hide Limits.Admits;
    if p.fault { MarkKeepsInv(c, p, p.ClearCommitted(), Lowered); } else { QuietKeepsInv(c, p, p.ClearCommitted()); }
  }

  /** A current request of the log that asks for motion may be granted it: nothing was revoked since it came. */
  lemma GrantKeepsInv(c: Limits, p: Permit, r: Request)
    requires c.Valid() && Inv(c, p) && p.configured && p.Current(r) && Logged(p.log, r)
      && r.operation in {Enable, Relative}
    ensures Inv(c, p.Granted(r)) && Unrevoked(p.log, r)
  {
    StillIsAdmitted(c);
    hide Limits.Admits;
    hide Logged;
    CurrentIsUnrevoked(c, p, r);
  }

  /** For a logged request, the check of the generation is the check that nothing was revoked since it came. */
  lemma CurrentIsUnrevoked(c: Limits, p: Permit, r: Request)
    requires c.Valid() && Inv(c, p) && Logged(p.log, r)
    ensures Unrevoked(p.log, r) <==> r.generation == p.stopGeneration
  {
    hide Limits.Admits;
    forall k | 0 <= k < |p.log| && p.log[k].Submitted? && p.log[k].request == r
      ensures r.generation == p.stopGeneration <==> forall j | k < j < |p.log| :: p.log[j] != Revoked
    {
      CountsSince(p.log, k);
    }
  }

  lemma TickKeepsInv(c: Limits, p: Permit, recent: bool)
    requires c.Valid() && Inv(c, p)
    ensures Inv(c, p.Ticked(c, recent))
  {
    RampStaysAdmitted(c, p.sent, if p.permitted && recent then p.target else Still);
    hide Limits.Admits;
    hide Limits.Ramp;
    QuietKeepsInv(c, p, p.Ticked(c, recent));
  }

  lemma BrakeKeepsInv(c: Limits, p: Permit)
    requires c.Valid() && Inv(c, p)
    ensures Inv(c, p.Braked(c))
  {
    RampStaysAdmitted(c, p.sent, Still);
    hide Limits.Admits;
    hide Limits.Ramp;
    QuietKeepsInv(c, p, p.Braked(c));
  }

  // ----- What the invariant means -----

  /** Without permission, or with a stale command, a tick is a braking step: the faster wheel loses a notch. */
  lemma UncommandedTickBrakes(c: Limits, p: Permit, recent: bool)
    requires c.Valid() && !(p.permitted && recent)
    ensures p.Ticked(c, recent).sent == Brake(c, p.sent)
    ensures p.Ticked(c, recent).sent.Fastest() <= Max(0.0, p.sent.Fastest() - Notch(c)) <= p.sent.Fastest()
  {
    BrakeContracts(c, p.sent);
    NotchPositive(c);
    hide Notch;
    hide Limits.Ramp;
    assert Brake(c, p.sent) == c.Ramp(p.sent, Still);
  }

  function TickedFor(c: Limits, p: Permit, n: nat): Permit
    requires c.Valid()
    decreases n
  {
    if n == 0 then p else TickedFor(c, p.Ticked(c, true), n - 1)
  }

  lemma {:induction false} TicksFollowTarget(c: Limits, p: Permit, n: nat)
    requires c.Valid() && p.permitted
    ensures TickedFor(c, p, n).sent == RampTicks(c, n, p.sent, p.target)
    decreases n
  {
    hide Limits.Ramp;
    if n > 0 {
      TicksFollowTarget(c, p.Ticked(c, true), n - 1);
    }
  }

  /**
   With permission and fresh commands, ticks reach the commanded speeds, limited: `n` of them brake if a wheel has to
   reverse, and `m` go the way from there.
   */
  lemma CommandIsReached(c: Limits, p: Permit, n: nat, m: nat)
    requires c.Valid() && p.permitted
    requires Limits.Reverses(p.sent, c.Limited(p.target)) ==> p.sent.Fastest() <= Mul(n as real, Notch(c))
    requires var t := c.Limited(p.target);
      var start := if Limits.Reverses(p.sent, t) then Still else p.sent;
      forall k | 0 <= k < c.Axes() :: c.Distance(k, start, t) <= Mul(m as real, LeastStep(c))
    ensures TickedFor(c, p, n + m).sent == c.Limited(p.target)
  {
    TicksFollowTarget(c, p, n + m);
    RequestIsReached(c, n, m, p.sent, p.target);
  }

  lemma NotchPositive(c: Limits)
    requires c.Valid()
    ensures 0.0 < Notch(c)
  {
  }

  /**
   A clear takes away the fault it named exactly when the fault has not risen again since it
   was submitted: the check at submission is not repeated.
   */
  lemma ClearHitsNamedFaultIff(c: Limits, p: Permit, k: nat)
    requires c.Valid() && Inv(c, p) && k < |p.log| && p.log[k].Submitted? && p.log[k].request.operation == Clear
    ensures p.faultSequence == p.log[k].expectedFault <==> forall j | k < j < |p.log| :: p.log[j] != Raised
  {
    hide Limits.Admits;
    CountsSince(p.log, k);
  }
}
