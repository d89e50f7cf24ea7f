/** Unwrapping a quantised encoder angle that wraps around. */
module PositionTracking {
  import opened Numbers

  /** Time stamps are nanosecond counts; angles are radians. */
  datatype Sample = Sample(valid: bool, sequence: nat, receivedAt: int, position: real)

  function Seconds(ticks: int): real { ticks as real / 1000000000.0 }

  /** Nearest integer, ties to even. */
  function RoundHalfEven(x: real): int {
    var low := x.Floor;
    var part := x - low as real;
    if part < 0.5 || (part == 0.5 && low % 2 == 0) then low else low + 1
  }

  /** `std::remainder`. */
  function Remainder(x: real, wrap: real): real
    requires wrap > 0.0
  {
    x - Mul(RoundHalfEven(x / wrap) as real, wrap)
  }

  datatype Bounds = Bounds(wrap: real, maximumSpeed: real, resolution: real, maximumGap: real) {
    predicate Valid() { 0.0 <= wrap && 0.0 < maximumSpeed && 0.0 <= resolution && 0.0 < maximumGap }

    /** The farthest two readings `dt` apart can differ by motion and quantisation. */
    function Reach(dt: real): real { Mul(maximumSpeed, dt) + 2.0 * resolution }

    predicate GapGood(dt: real) {
      0.0 < dt <= maximumGap && (wrap > 0.0 ==> Reach(dt) < wrap / 2.0)
    }

    function Delta(from: real, to: real): real {
      if wrap > 0.0 then Remainder(to - from, wrap) else to - from
    }
  }

  datatype Track = Track(initialized: bool, valid: bool, sequence: nat, stamp: int, position: real, raw: real) {
    predicate Usable() { valid && initialized }

    /** The track after one sample. */
    function Updated(s: Sample, b: Bounds): Track {
      if !s.valid || s.sequence == sequence then this
      else if !initialized then Track(true, true, s.sequence, s.receivedAt, position, s.position)
      else
        var dt := Seconds(s.receivedAt - stamp);
        var delta := b.Delta(raw, s.position);
        var good := valid && b.GapGood(dt) && Abs(delta) <= b.Reach(dt);
        Track(true, good, s.sequence, s.receivedAt, if good then position + delta else position, s.position)
    }
  }

  const Fresh := Track(false, false, 0, 0, 0.0, 0.0)

  class PositionTracker {
    var initialized: bool
    var valid: bool
    var sequence: nat
    var stamp: int
    var position: real
    var raw: real

    function View(): Track
      reads this
    {
      Track(initialized, valid, sequence, stamp, position, raw)
    }

    constructor ()
      ensures View() == Fresh
    {
      initialized, valid, sequence, stamp, position, raw := false, false, 0, 0, 0.0, 0.0;
    }

    method Update(s: Sample, b: Bounds) returns (good: bool)
      modifies this
      ensures View() == old(View()).Updated(s, b)
      ensures good == (s.valid && valid)
    {
      if !s.valid {
        return false;
      }
      if s.sequence == sequence {
        return valid;
      }
      if !initialized {
        initialized, valid := true, true;
        raw, stamp, sequence := s.position, s.receivedAt, s.sequence;
        return true;
      }
      var dt := Seconds(s.receivedAt - stamp);
      var delta := s.position - raw;
      if dt <= 0.0 || dt > b.maximumGap
         || (b.wrap > 0.0 && Mul(b.maximumSpeed, dt) + 2.0 * b.resolution >= b.wrap / 2.0) {
        valid := false;
      }
      if b.wrap > 0.0 {
        delta := Remainder(delta, b.wrap);
      }
      if Abs(delta) > Mul(b.maximumSpeed, dt) + 2.0 * b.resolution {
        valid := false;
      }
      if valid {
        position := position + delta;
      }
      sequence, stamp, raw := s.sequence, s.receivedAt, s.position;
      return valid;
    }

    method Reset()
      modifies this
      ensures View() == Fresh
    {
      initialized, valid, sequence, stamp, position, raw := false, false, 0, 0, 0.0, 0.0;
    }
  }

  // ----- The remainder picks the one short displacement -----

  lemma RoundShifts(x: real, m: int)
    requires -0.5 < x < 0.5
    ensures RoundHalfEven(x + m as real) == m
  {
  }

  /** Adding whole turns to a displacement shorter than half a turn does not change its remainder. */
  lemma RemainderUndoesTurns(d: real, m: int, wrap: real)
    requires 0.0 < wrap && -wrap / 2.0 < d < wrap / 2.0
    ensures Remainder(d + Mul(m as real, wrap), wrap) == d
  {
    var q := d / wrap;
    assert -0.5 < q < 0.5;
    assert (d + Mul(m as real, wrap)) / wrap == q + m as real;
    RoundShifts(q, m);
  }

  /** A displacement no longer than `reach` that agrees with a difference of readings up to whole turns. */
  predicate Explains(d: real, difference: real, turns: int, reach: real, wrap: real) {
    Abs(d) <= reach && difference == d + Mul(turns as real, wrap)
  }

  /**
   The half-turn condition of the tracker is exactly what makes a difference of readings
   mean one displacement.
   */
  lemma UnwrappingIsUniqueIff(reach: real, wrap: real)
    requires 0.0 < wrap && 0.0 <= reach
    ensures reach < wrap / 2.0 <==>
      (forall difference: real, d: real, t: int, e: real, u: int ::
         Explains(d, difference, t, reach, wrap) && Explains(e, difference, u, reach, wrap) ==> d == e)
  {
    if reach < wrap / 2.0 {
      forall difference: real, d: real, t: int, e: real, u: int
        | Explains(d, difference, t, reach, wrap) && Explains(e, difference, u, reach, wrap)
        ensures d == e
      {
        RemainderUndoesTurns(d, t, wrap);
        RemainderUndoesTurns(e, u, wrap);
      }
    } else {
      var half := wrap / 2.0;
      assert Explains(half, half, 0, reach, wrap);
      assert Explains(-half, half, 1, reach, wrap);
    }
  }

  /** A difference of readings with whole turns taken off. */
  function Unwound(difference: real, turns: int, wrap: real): real { difference - Mul(turns as real, wrap) }

  /** Is there a displacement of at most `reach` that explains two readings? Without wrapping, only their difference. */
  ghost predicate Explainable(difference: real, reach: real, wrap: real) {
    exists turns: int :: (wrap == 0.0 ==> turns == 0) && Abs(Unwound(difference, turns, wrap)) <= reach
  }

  /** Is `motion` such a displacement? */
  ghost predicate IsExplanation(motion: real, difference: real, reach: real, wrap: real) {
    && Abs(motion) <= reach
    && exists turns: int :: (wrap == 0.0 ==> turns == 0) && motion == Unwound(difference, turns, wrap)
  }

  lemma RemainderDiffersByTurns(x: real, wrap: real) returns (turns: int)
    requires 0.0 < wrap
    ensures Remainder(x, wrap) == Unwound(x, turns, wrap)
  {
    turns := RoundHalfEven(x / wrap);
  }

  lemma ShortestExplains(difference: real, reach: real, wrap: real)
    requires 0.0 < wrap && 0.0 <= reach < wrap / 2.0
    ensures Explainable(difference, reach, wrap) <==> Abs(Remainder(difference, wrap)) <= reach
    ensures forall turns: int | Abs(Unwound(difference, turns, wrap)) <= reach ::
      Remainder(difference, wrap) == Unwound(difference, turns, wrap)
  {
    var k := RemainderDiffersByTurns(difference, wrap);
    hide Remainder;
    if Abs(Remainder(difference, wrap)) <= reach {
      assert Abs(Unwound(difference, k, wrap)) <= reach;
    }
    forall turns: int | Abs(Unwound(difference, turns, wrap)) <= reach
      ensures Remainder(difference, wrap) == Unwound(difference, turns, wrap)
    {
      RemainderUndoesTurns(Unwound(difference, turns, wrap), turns, wrap);
    }
  }

  /**
   A tracker stays valid exactly when the new sample is neither simultaneous nor too late, the wheel cannot have
   turned half round meanwhile, and some displacement that the wheel can have made explains the readings; the
   position then moves by that displacement. Whatever jumps farther, or comes after a longer gap, loses the track.
   */
  lemma StaysValidIff(t: Track, s: Sample, b: Bounds)
    requires b.Valid() && t.initialized && s.valid && s.sequence != t.sequence
    ensures var dt, next := (s.receivedAt - t.stamp) as real / 1000000000.0, t.Updated(s, b);
      var reach := Mul(b.maximumSpeed, dt) + 2.0 * b.resolution;
      && (next.valid <==>
            && t.valid && 0.0 < dt <= b.maximumGap && (b.wrap > 0.0 ==> reach < b.wrap / 2.0)
            && Explainable(s.position - t.raw, reach, b.wrap))
      && (!next.valid ==> next.position == t.position)
      && (next.valid ==> IsExplanation(next.position - t.position, s.position - t.raw, reach, b.wrap))
      && next.raw == s.position && next.stamp == s.receivedAt && next.sequence == s.sequence
  {
    var dt, d := Seconds(s.receivedAt - t.stamp), s.position - t.raw;
    var reach := b.Reach(dt);
    if b.wrap > 0.0 {
      var k := RemainderDiffersByTurns(d, b.wrap);
      hide Remainder;
      if 0.0 < dt {
        MulPositive(b.maximumSpeed, dt);
        if reach < b.wrap / 2.0 { ShortestExplains(d, reach, b.wrap); }
      }
      hide Mul;
    } else {
      MulUnit(0.0);
      assert Mul(0 as real, b.wrap) == 0.0;
      hide Remainder;
      assert Unwound(d, 0, b.wrap) == d;
    }
  }

  // ----- A run against the true angle -----

  /** One sample together with what it measured: the true angle, the reading error, and the turns wrapped off. */
  datatype Observation = Observation(sample: Sample, truth: real, error: real, turns: int)

  predicate Reads(o: Observation, b: Bounds) {
    && o.sample.valid
    && Abs(o.error) <= b.resolution
    && (b.wrap == 0.0 ==> o.turns == 0)
    && o.sample.position == o.truth + o.error + Mul(o.turns as real, b.wrap)
  }

  /** What the wheel may have done between two observations. */
  predicate Follows(o: Observation, p: Observation, b: Bounds) {
    var dt := Seconds(p.sample.receivedAt - o.sample.receivedAt);
    Abs(p.truth - o.truth) <= Mul(b.maximumSpeed, dt)
  }

  /** The tracker stands right after observation `o`, with `origin` the first one it took. */
  predicate InStep(t: Track, origin: Observation, o: Observation) {
    && t.Usable() && t.sequence == o.sample.sequence && t.stamp == o.sample.receivedAt && t.raw == o.sample.position
    && t.position == (o.truth + o.error) - (origin.truth + origin.error)
  }

  lemma DeltaIsDisplacement(o: Observation, p: Observation, b: Bounds)
    requires b.Valid() && Reads(o, b) && Reads(p, b) && Follows(o, p, b)
    requires b.GapGood(Seconds(p.sample.receivedAt - o.sample.receivedAt))
    ensures b.Delta(o.sample.position, p.sample.position) == (p.truth + p.error) - (o.truth + o.error)
    ensures Abs(b.Delta(o.sample.position, p.sample.position))
         <= b.Reach(Seconds(p.sample.receivedAt - o.sample.receivedAt))
  {
    hide Mul;
    hide Seconds;
    hide Remainder;
    var d := (p.truth + p.error) - (o.truth + o.error);
    MulSpread(b.wrap, p.turns as real, o.turns as real);
    MulUnit(b.wrap);
    if b.wrap > 0.0 {
      RemainderUndoesTurns(d, p.turns - o.turns, b.wrap);
    }
  }

  /** A sample the tracker has seen already, or that carries no reading. */
  predicate Ignored(t: Track, s: Sample) { !s.valid || s.sequence == t.sequence }

  /** Each sample is either ignored or a good new reading of the moving wheel. */
  predicate GoodRun(t: Track, o: Observation, run: seq<Observation>, b: Bounds)
    decreases |run|
  {
    run != [] ==>
      var p := run[0];
      if Ignored(t, p.sample) then GoodRun(t, o, run[1..], b)
      else
        && Reads(p, b) && Follows(o, p, b)
        && b.GapGood(Seconds(p.sample.receivedAt - o.sample.receivedAt))
        && GoodRun(t.Updated(p.sample, b), p, run[1..], b)
  }

  function Tracked(t: Track, run: seq<Observation>, b: Bounds): Track
    decreases |run|
  {
    if run == [] then t else Tracked(t.Updated(run[0].sample, b), run[1..], b)
  }

  /** The last observation that was not ignored. */
  function LastTaken(t: Track, o: Observation, run: seq<Observation>, b: Bounds): Observation
    decreases |run|
  {
    if run == [] then o
    else LastTaken(t.Updated(run[0].sample, b), if Ignored(t, run[0].sample) then o else run[0], run[1..], b)
  }

  lemma {:induction false} RunStaysInStep(t: Track, origin: Observation, o: Observation, run: seq<Observation>,
                                          b: Bounds)
    requires b.Valid() && Reads(o, b) && InStep(t, origin, o) && GoodRun(t, o, run, b)
    ensures InStep(Tracked(t, run, b), origin, LastTaken(t, o, run, b)) && Reads(LastTaken(t, o, run, b), b)
    decreases |run|
  {
    if run != [] {
      var p := run[0];
      if Ignored(t, p.sample) {
        RunStaysInStep(t, origin, o, run[1..], b);
      } else {
        DeltaIsDisplacement(o, p, b);
        hide Bounds.Delta;
        RunStaysInStep(t.Updated(p.sample, b), origin, p, run[1..], b);
      }
    }
  }

  /**
   Over a run of any length the tracker stays valid, and its position differs from the true
   displacement by at most twice the resolution: reading errors telescope, they do not add up.
   */
  lemma TrackingNeverDrifts(first: Observation, run: seq<Observation>, b: Bounds)
    requires b.Valid() && Reads(first, b) && first.sample.sequence != 0
    requires GoodRun(Fresh.Updated(first.sample, b), first, run, b)
    ensures var start := Fresh.Updated(first.sample, b);
      && Tracked(start, run, b).Usable()
      && Abs(Tracked(start, run, b).position - (LastTaken(start, first, run, b).truth - first.truth))
           <= 2.0 * b.resolution
  {
    RunStaysInStep(Fresh.Updated(first.sample, b), first, first, run, b);
  }

  // ----- Losing track -----

  /** A repeated sequence number changes nothing, whatever else the sample says. */
  lemma RepeatsDoNotIntegrate(t: Track, s: Sample, r: Sample, b: Bounds)
    requires s.valid && r.sequence == s.sequence
    ensures t.Updated(s, b).Updated(r, b) == t.Updated(s, b)
  {
  }

  /** Once lost, the track stays lost and its position stands still. */
  lemma {:induction false} LostStaysLost(t: Track, run: seq<Observation>, b: Bounds)
    requires t.initialized && !t.valid
    ensures !Tracked(t, run, b).Usable() && Tracked(t, run, b).position == t.position
    decreases |run|
  {
    if run != [] {
      LostStaysLost(t.Updated(run[0].sample, b), run[1..], b);
    }
  }
}
