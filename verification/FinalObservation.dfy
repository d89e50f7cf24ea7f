/**
 The last phase of a relative motion: with the drivers disabled, both wheels must stand at their targets for a while.
 */
module FinalObservation {
  import opened Numbers
  import opened WheelMotion
  import opened Can
  import RM = RelativeMotion

  /** One round of the loop: what the clock, the bus and the trackers said. */
  datatype Round = Round(now: int, cancelled: bool, refresh: Code, usable: bool, travel: Pair, velocity: Pair)

  datatype Goal = Goal(target: Pair, tolerance: real, settledSpeed: real, settleTime: int, end: int)

  predicate Settled(g: Goal, r: Round) {
    RM.Reached(g.target, r.travel, g.tolerance) && RM.Reached(Still, r.velocity, g.settledSpeed)
  }

  /** A round that lets the observation go on. */
  predicate Clean(g: Goal, r: Round) { r.now < g.end && !r.cancelled && r.refresh == Ok && r.usable }

  /** All rounds from `from` to `to` are clean and settled, and they span the settling time. */
  predicate Confirms(g: Goal, rounds: seq<Round>, from: nat, to: nat) {
    && from < to < |rounds|
    && (forall k | from <= k <= to :: Clean(g, rounds[k]) && Settled(g, rounds[k]))
    && g.settleTime <= rounds[to].now - rounds[from].now
  }

  predicate ConfirmedAt(g: Goal, rounds: seq<Round>, to: nat)
    requires to < |rounds|
  {
    exists from: nat | from < to :: Confirms(g, rounds, from, to)
  }

  /** What ends the observation at a round that is not clean. */
  function Failure(g: Goal, r: Round): Code
    requires !Clean(g, r)
  {
    if r.now >= g.end then Timeout
    else if r.cancelled then NotExecuted
    else if r.refresh != Ok then r.refresh
    else StaleFeedback
  }

  predicate ClearUpTo(g: Goal, rounds: seq<Round>, n: nat)
    requires n <= |rounds|
  {
    forall k | 0 <= k < n :: Clean(g, rounds[k])
  }

  /**
   Watches the rounds until one fails or the wheels have settled for long enough. `Ok` means that a
   settled stretch of the full length was seen, on clean rounds only; anything else is the first failure.
   */
  method Observe(g: Goal, rounds: seq<Round>) returns (code: Code, used: nat)
    requires forall i, j | 0 <= i < j < |rounds| :: rounds[i].now <= rounds[j].now
    requires 0 <= g.settleTime
    ensures used <= |rounds|
    ensures code == Ok <==> used > 0 && ConfirmedAt(g, rounds, used - 1)
    ensures ClearUpTo(g, rounds, used)
    ensures code != Ok && used < |rounds| ==>
      var r := rounds[used];
      && (r.now < g.end ==> r.cancelled || r.refresh != Ok || !r.usable)
      && code == if r.now >= g.end then Timeout else if r.cancelled then NotExecuted
                 else if r.refresh != Ok then r.refresh else StaleFeedback
    ensures forall to: nat | to < used && (code != Ok || to + 1 < used) :: !ConfirmedAt(g, rounds, to)
  {
    var since: Option<int>, start: nat := None, 0;
    used := 0;
    while used < |rounds|
      invariant used <= |rounds| && ClearUpTo(g, rounds, used)
      invariant since.Some? ==>
        start < used && since == Some(rounds[start].now) && forall k | start <= k < used :: Settled(g, rounds[k])
      invariant since.Some? ==> start == 0 || !Settled(g, rounds[start - 1])
      invariant since.None? ==> used == 0 || !Settled(g, rounds[used - 1])
      invariant forall to: nat | to < used :: !ConfirmedAt(g, rounds, to)
    {
      var r := rounds[used];
      if !Clean(g, r) {
        return Failure(g, r), used;
      }
      if !Settled(g, r) {
        since := None;
      } else if since.None? {
        since, start := Some(r.now), used;
      } else if r.now - since.value >= g.settleTime {
        assert Confirms(g, rounds, start, used);
        assert ConfirmedAt(g, rounds, used);
        return Ok, used + 1;
      }
      used := used + 1;
    }
    return Timeout, used;
  }

  /** A round is settled exactly when both wheels are near their targets and slow. */
  lemma SettledIff(g: Goal, r: Round)
    ensures Settled(g, r) <==> forall i: nat | i < 2 ::
      Abs(g.target.At(i) - r.travel.At(i)) <= g.tolerance && Abs(r.velocity.At(i)) <= g.settledSpeed
  {
    if forall i: nat | i < 2 ::
        Abs(g.target.At(i) - r.travel.At(i)) <= g.tolerance && Abs(r.velocity.At(i)) <= g.settledSpeed {
      assert Abs(r.velocity.At(0)) <= g.settledSpeed && Abs(r.velocity.At(1)) <= g.settledSpeed;
    }
  }

  /**
   A confirmed observation bounds the error of the goal itself, by kind, and how fast the body still moves along it,
   over the whole settling time and not only at its end.
   */
  lemma ConfirmedMeetsGoal(kind: RM.Kind, g: RM.Geometry, value: real, tolerance: real, goal: Goal,
                           rounds: seq<Round>, from: nat, k: nat, to: nat)
    requires RM.Suits(kind, g) && goal.target == RM.Target(kind, g, value) && goal.tolerance == tolerance
    requires Confirms(goal, rounds, from, to) && from <= k <= to
    ensures Abs(value - RM.Measured(kind, g, rounds[k].travel)) <= RM.GoalTolerance(kind, g, tolerance)
    ensures Abs(RM.Measured(kind, g, rounds[k].velocity)) <= RM.GoalTolerance(kind, g, goal.settledSpeed)
    ensures goal.settleTime <= rounds[to].now - rounds[from].now && rounds[to].now < goal.end
  {
    hide RM.Measured;
    hide RM.GoalTolerance;
    hide RM.Target;
    assert Settled(goal, rounds[k]) && Clean(goal, rounds[to]);
    RM.SuccessBoundsGoalError(kind, g, value, rounds[k].travel, tolerance);
    RM.RestIsNoMotion(kind, g);
    RM.SuccessBoundsGoalError(kind, g, 0.0, rounds[k].velocity, goal.settledSpeed);
  }
}
