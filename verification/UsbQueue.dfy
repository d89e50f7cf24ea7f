/**
 The transmit queue of the USB adapter: callers append, a sender thread hands frames to the
 adapter, and a receive callback may report a failure, each at any moment. Disable frames
 go to the front and purge the queued frames of their motor.
 */
module UsbQueue {
  import opened Numbers
  import opened Binary32
  import opened Can
  import P = Protocol
  import H = H55Protocol

  const Capacity := 16

  /** `serial` counts the accepted frames. */
  datatype Item = Item(frame: CanFrame, deadline: int, serial: nat) {
    predicate Disables() { IsDisable(frame) }
  }

  predicate IsDisable(f: CanFrame) {
    f.length == 8 && f.data[7] == 0xFD && forall i | 0 <= i < 7 :: f.data[i] == 0xFF
  }

  /** The queue takes for a disable exactly what the protocol encodes as one, for any motor in any mode. */
  lemma DisableIsRecognised(esc: nat, mode: P.Mode, m: P.Management)
    requires ValidEsc(esc)
    ensures IsDisable(P.EncodeManagement(esc, mode, m).value) <==> m == P.Disable
  {
  }

  /** No motion frame that can be encoded is taken for a disable: its bytes would be no number. */
  lemma MotionIsNoDisable(esc: nat, c: P.PositionCommand, speed: Double)
    ensures P.EncodePositionVelocity(esc, c).Success? ==> !IsDisable(P.EncodePositionVelocity(esc, c).value)
    ensures H.EncodeVelocity(esc, speed).Success? ==> !IsDisable(H.EncodeVelocity(esc, speed).value)
  {
    var f := P.EncodePositionVelocity(esc, c);
    if f.Success? {
      P.PositionVelocityArrives(esc, c);
      OnesAreNoNumber(f.value.data[..4]);
    }
  }

  lemma OnesAreNoNumber(s: seq<Byte>)
    requires |s| == 4
    ensures (forall i | 0 <= i < 4 :: s[i] == 0xFF) ==> !IsFinite(Load(s))
  {
  }

  /** A disable has the identifier of the motion frames of its mode, so these are what it purges. */
  lemma DisableSharesIdentifier(esc: nat, c: P.PositionCommand, speed: Double)
    ensures P.EncodePositionVelocity(esc, c).Success? ==>
      P.EncodePositionVelocity(esc, c).value.id == P.EncodeManagement(esc, P.PositionVelocity, P.Disable).value.id
    ensures H.EncodeVelocity(esc, speed).Success? ==>
      H.EncodeVelocity(esc, speed).value.id == P.EncodeManagement(esc, P.Velocity, P.Disable).value.id
  {
  }

  /** Where the sender thread stands with the frame it took from the queue. */
  datatype Sender = Idle | Taken(item: Item) | Cleared(item: Item) | Timely(item: Item) {
    function Held(): seq<Item> { if Idle? then [] else [item] }

    /** Past the failure check, the frame will not meet another one. */
    predicate PastCheck() { Cleared? || Timely? }
  }

  /** A frame handed to the adapter; `late` when the failure was latched already. */
  datatype Handed = Handed(item: Item, late: bool)

  datatype Action =
    | Send(frame: CanFrame, now: int, locked: bool)
    | Take
    | CheckFailure
    | CheckDeadline(at: int)
    | HandOver(ok: bool)
    | ReceiveFails

  /** Queue, sender and latch, with the history: accepted frames, hand-overs, and frames dropped. */
  datatype Queue = Queue(
    tx: seq<Item>, sender: Sender, failed: bool,
    accepted: seq<Item>, trace: seq<Handed>, dropped: seq<Item>, excused: Option<Item>)
  {
    /** What has left, is leaving and will leave, in that order. */
    function Line(): seq<Item> { HandedItems(trace) + sender.Held() + tx }

    /** Latching the failure; a frame past its check is excused from it. */
    function Latched(): Queue {
      if failed then this
      else this.(failed := true, excused := if sender.PastCheck() then Some(sender.item) else None)
    }

    function Purged(id: nat): Queue {
      this.(tx := Without(tx, id), dropped := dropped + Only(tx, id))
    }

    /** The queue after `send`, and its answer. */
    function Sent(f: CanFrame, now: int, locked: bool, allowance: int): (Queue, Code) {
      if f.id > 0x7FF || f.length > 8 then (this, InvalidFrame)
      else if !locked then (this, WouldBlock)
      else
        var disable := IsDisable(f);
        var q := if disable then Purged(f.id) else this;
        if q.failed && !disable then (q, BusError)
        else if |q.tx| >= Capacity then (q, WouldBlock)
        else
          var item := Item(f, now + allowance, |accepted|);
          (q.(tx := if disable then [item] + q.tx else q.tx + [item], accepted := accepted + [item]), Ok)
    }

    function Drop(): Queue
      requires !sender.Idle?
    {
      this.(sender := Idle, dropped := dropped + [sender.item])
    }

    function Step(a: Action, allowance: int): Queue {
      match a
      case Send(f, now, locked) => Sent(f, now, locked, allowance).0
      case Take => if sender.Idle? && tx != [] then this.(sender := Taken(tx[0]), tx := tx[1..]) else this
      case CheckFailure =>
        if !sender.Taken? then this
        else if failed && !sender.item.Disables() then Drop()
        else this.(sender := Cleared(sender.item))
      case CheckDeadline(at) =>
        if !sender.Cleared? then this
        else if at > sender.item.deadline then Drop().Latched()
        else this.(sender := Timely(sender.item))
      case HandOver(ok) =>
        if !sender.Timely? then this
        else
          var q := this.(sender := Idle, trace := trace + [Handed(sender.item, failed)]);
          if ok then q else q.Latched()
      case ReceiveFails => Latched()
    }
  }

  const Empty := Queue([], Idle, false, [], [], [], None)

  function HandedItems(trace: seq<Handed>): (s: seq<Item>)
    ensures |s| == |trace| && forall i | 0 <= i < |s| :: s[i] == trace[i].item
  {
    if trace == [] then [] else HandedItems(trace[..|trace| - 1]) + [trace[|trace| - 1].item]
  }

  /** The items for other motors than `id`, in order. */
  function Without(s: seq<Item>, id: nat): (r: seq<Item>)
    ensures |r| <= |s|
  {
    if s == [] then []
    else Without(s[..|s| - 1], id) + if s[|s| - 1].frame.id == id then [] else [s[|s| - 1]]
  }

  function Only(s: seq<Item>, id: nat): seq<Item> {
    if s == [] then []
    else Only(s[..|s| - 1], id) + if s[|s| - 1].frame.id == id then [s[|s| - 1]] else []
  }

  function Run(q: Queue, actions: seq<Action>, allowance: int): Queue
    decreases |actions|
  {
    if actions == [] then q
    else Run(q, actions[..|actions| - 1], allowance).Step(actions[|actions| - 1], allowance)
  }

  // ----- Order -----

  /** May `x` leave before `y`? Motion frames keep their order, and nothing older follows a disable of its motor. */
  predicate MayPrecede(x: Item, y: Item) {
    && (!x.Disables() && !y.Disables() ==> x.serial < y.serial)
    && (x.Disables() && x.frame.id == y.frame.id ==> x.serial < y.serial)
  }

  predicate Ordered(s: seq<Item>) {
    forall i, j | 0 <= i < j < |s| :: MayPrecede(s[i], s[j])
  }

  lemma {:induction false} WithoutKeepsOrder(s: seq<Item>, id: nat)
    requires Ordered(s)
    ensures Ordered(Without(s, id))
    ensures forall i | 0 <= i < |Without(s, id)| :: Without(s, id)[i] in s
  {
    hide MayPrecede;
    if s != [] {
      var front, last := s[..|s| - 1], s[|s| - 1];
      WithoutKeepsOrder(front, id);
      assert s == front + [last];
      var kept := Without(front, id);
      forall i | 0 <= i < |kept|
        ensures MayPrecede(kept[i], last)
      {
        var k :| 0 <= k < |front| && front[k] == kept[i];
        assert MayPrecede(s[k], s[|s| - 1]);
      }
    }
  }

  lemma {:induction false} PurgeSplits(s: seq<Item>, id: nat)
    ensures multiset(Without(s, id)) + multiset(Only(s, id)) == multiset(s)
  {
    if s != [] {
      PurgeSplits(s[..|s| - 1], id);
      assert s == s[..|s| - 1] + [s[|s| - 1]];
    }
  }

  /** Purging takes away all items of one motor and none of the others. */
  lemma {:induction false} WithoutIsExact(s: seq<Item>, id: nat, x: Item)
    ensures multiset(Without(s, id))[x] == if x.frame.id == id then 0 else multiset(s)[x]
  {
    if s != [] {
      WithoutIsExact(s[..|s| - 1], id, x);
      assert s == s[..|s| - 1] + [s[|s| - 1]];
    }
  }

  lemma JoinedInOrder(a: seq<Item>, b: seq<Item>)
    ensures Ordered(a + b) <==>
      Ordered(a) && Ordered(b) && forall i, j | 0 <= i < |a| && 0 <= j < |b| :: MayPrecede(a[i], b[j])
  {
    var s := a + b;
    if Ordered(s) {
      forall i, j | 0 <= i < j < |a| ensures MayPrecede(a[i], a[j]) { assert MayPrecede(s[i], s[j]); }
      forall i, j | 0 <= i < j < |b| ensures MayPrecede(b[i], b[j]) { assert MayPrecede(s[|a| + i], s[|a| + j]); }
      forall i, j | 0 <= i < |a| && 0 <= j < |b| ensures MayPrecede(a[i], b[j]) { assert MayPrecede(s[i], s[|a| + j]); }
    }
  }

  // ----- The invariant -----

  /** The line of frames is in order, and what is not in it has been dropped. */
  predicate Lined(line: seq<Item>, dropped: seq<Item>, accepted: seq<Item>) {
    && Ordered(line)
    && (forall i | 0 <= i < |accepted| :: accepted[i].serial == i)
    && multiset(line) + multiset(dropped) == multiset(accepted)
  }

  predicate NoneLate(trace: seq<Handed>) { forall i | 0 <= i < |trace| :: !trace[i].late }

  /** Hand-overs after the latch: only disables, but for the one excused frame, which comes first. */
  predicate LateAreDisables(trace: seq<Handed>, excused: Option<Item>) {
    && (forall i | 0 <= i < |trace| && trace[i].late ::
          trace[i].item.Disables() || excused == Some(trace[i].item))
    && (forall i, j | 0 <= i < j < |trace| && trace[i].late :: trace[j].late && trace[j].item.Disables())
  }

  /** A motion frame past its check under a latched failure is the excused one, and nothing late has left before it. */
  predicate HeldIsExcused(sender: Sender, trace: seq<Handed>, excused: Option<Item>) {
    sender.PastCheck() && !sender.item.Disables() ==> excused == Some(sender.item) && NoneLate(trace)
  }

  predicate LatchKept(failed: bool, sender: Sender, trace: seq<Handed>, excused: Option<Item>) {
    && (!failed ==> excused == None && NoneLate(trace))
    && LateAreDisables(trace, excused)
    && (failed ==> HeldIsExcused(sender, trace, excused))
  }

  predicate Inv(q: Queue) {
    && |q.tx| <= Capacity
    && Lined(q.Line(), q.dropped, q.accepted)
    && LatchKept(q.failed, q.sender, q.trace, q.excused)
  }

  lemma LatchedKeepsInv(q: Queue)
    requires Inv(q)
    ensures Inv(q.Latched())
  {
  }

  lemma PurgeKeepsLine(gone: seq<Item>, tx: seq<Item>, dropped: seq<Item>, accepted: seq<Item>, id: nat)
    requires Lined(gone + tx, dropped, accepted)
    ensures Lined(gone + Without(tx, id), dropped + Only(tx, id), accepted)
  {
    hide MayPrecede;
    hide Without;
    hide Only;
    JoinedInOrder(gone, tx);
    WithoutKeepsOrder(tx, id);
    PurgeSplits(tx, id);
    var kept := Without(tx, id);
    forall i, j | 0 <= i < |gone| && 0 <= j < |kept|
      ensures MayPrecede(gone[i], kept[j])
    {
      var k :| 0 <= k < |tx| && tx[k] == kept[j];
    }
    JoinedInOrder(gone, kept);
  }

  /** Whatever is in the line was accepted, so the next serial number is above it. */
  lemma LineIsOlder(line: seq<Item>, dropped: seq<Item>, accepted: seq<Item>, i: nat)
    requires Lined(line, dropped, accepted) && i < |line|
    ensures line[i].serial < |accepted|
  {
    assert line[i] in multiset(accepted);
  }

  /** Joining the newest frame in front of or behind the queue. */
  lemma AcceptKeepsLine(gone: seq<Item>, tx: seq<Item>, dropped: seq<Item>, accepted: seq<Item>, item: Item)
    requires Lined(gone + tx, dropped, accepted) && item.serial == |accepted|
    requires item.Disables() ==> forall i | 0 <= i < |tx| :: tx[i].frame.id != item.frame.id
    ensures Lined(gone + if item.Disables() then [item] + tx else tx + [item], dropped, accepted + [item])
  {
    hide Sender.Held;
    hide IsDisable;
    var line := gone + tx;
    JoinedInOrder(gone, tx);
    forall i | 0 <= i < |line| ensures line[i].serial < item.serial { LineIsOlder(line, dropped, accepted, i); }
    forall i | 0 <= i < |gone| ensures MayPrecede(gone[i], item) { assert gone[i] == line[i]; }
    forall i | 0 <= i < |tx| ensures tx[i].serial < item.serial { assert tx[i] == line[|gone| + i]; }
    hide Lined;
    AcceptOrder(gone, tx, item);
    var after := if item.Disables() then [item] + tx else tx + [item];
    assert multiset(gone + after) == multiset(line) + multiset([item]);
    LinedFrom(gone + after, line, dropped, accepted, item);
  }

  lemma LinedFrom(after: seq<Item>, line: seq<Item>, dropped: seq<Item>, accepted: seq<Item>, item: Item)
    requires Lined(line, dropped, accepted) && item.serial == |accepted| && Ordered(after)
    requires multiset(after) == multiset(line) + multiset([item])
    ensures Lined(after, dropped, accepted + [item])
  {
  }

  lemma AcceptOrder(gone: seq<Item>, tx: seq<Item>, item: Item)
    requires Ordered(gone) && Ordered(tx)
      && (forall i, j | 0 <= i < |gone| && 0 <= j < |tx| :: MayPrecede(gone[i], tx[j]))
    requires forall i | 0 <= i < |gone| :: MayPrecede(gone[i], item)
    requires forall i | 0 <= i < |tx| :: tx[i].serial < item.serial
    requires item.Disables() ==> forall i | 0 <= i < |tx| :: tx[i].frame.id != item.frame.id
    ensures Ordered(gone + if item.Disables() then [item] + tx else tx + [item])
  {
  }

  lemma SentKeepsInv(q: Queue, f: CanFrame, now: int, locked: bool, allowance: int)
    requires Inv(q)
    ensures Inv(q.Sent(f, now, locked, allowance).0)
  {
    hide Lined;
    hide LatchKept;
    hide Without;
    hide Only;
    hide HandedItems;
    hide IsDisable;
    var gone := HandedItems(q.trace) + q.sender.Held();
    if f.id <= 0x7FF && f.length <= 8 && locked {
      var p := if IsDisable(f) then q.Purged(f.id) else q;
      if IsDisable(f) {
        PurgeKeepsLine(gone, q.tx, q.dropped, q.accepted, f.id);
        WithoutDropsMotor(q.tx, f.id);
      }
      var item := Item(f, now + allowance, |q.accepted|);
      AcceptKeepsLine(gone, p.tx, p.dropped, p.accepted, item);
    }
  }

  lemma {:induction false} WithoutDropsMotor(s: seq<Item>, id: nat)
    ensures forall i | 0 <= i < |Without(s, id)| :: Without(s, id)[i].frame.id != id
  {
    if s != [] {
      WithoutDropsMotor(s[..|s| - 1], id);
    }
  }

  lemma TakeKeepsInv(q: Queue)
    requires Inv(q) && q.sender.Idle? && q.tx != []
    ensures Inv(q.(sender := Taken(q.tx[0]), tx := q.tx[1..]))
  {
    hide Lined;
    hide NoneLate;
    hide LateAreDisables;
    hide HandedItems;
    assert q.Line() == q.(sender := Taken(q.tx[0]), tx := q.tx[1..]).Line();
  }

  /** The sender moves on with the frame it holds. */
  lemma AdvanceKeepsInv(q: Queue, s: Sender)
    requires Inv(q) && !q.sender.Idle? && !s.Idle? && s.item == q.sender.item
    requires q.failed && s.PastCheck() ==> q.sender.PastCheck() || s.item.Disables()
    ensures Inv(q.(sender := s))
  {
  }

  lemma DropKeepsLine(gone: seq<Item>, item: Item, tx: seq<Item>, dropped: seq<Item>, accepted: seq<Item>)
    requires Lined(gone + [item] + tx, dropped, accepted)
    ensures Lined(gone + tx, dropped + [item], accepted)
  {
    hide MayPrecede;
    JoinedInOrder(gone + [item], tx);
    JoinedInOrder(gone, [item]);
    forall i, j | 0 <= i < |gone| && 0 <= j < |tx|
      ensures MayPrecede(gone[i], tx[j])
    {
      assert gone[i] == (gone + [item])[i];
    }
    JoinedInOrder(gone, tx);
  }

  lemma DropKeepsInv(q: Queue)
    requires Inv(q) && !q.sender.Idle?
    ensures Inv(q.Drop())
  {
    hide Lined;
    hide NoneLate;
    hide LateAreDisables;
    hide HandedItems;
    hide IsDisable;
    var gone := HandedItems(q.trace);
    DropKeepsLine(gone, q.sender.item, q.tx, q.dropped, q.accepted);
    assert q.Drop().Line() == gone + q.tx;
  }

  lemma HandOverKeepsInv(q: Queue)
    requires Inv(q) && q.sender.Timely?
    ensures Inv(q.(sender := Idle, trace := q.trace + [Handed(q.sender.item, q.failed)]))
  {
    hide Lined;
    hide IsDisable;
    var p := q.(sender := Idle, trace := q.trace + [Handed(q.sender.item, q.failed)]);
    assert p.trace[..|p.trace| - 1] == q.trace;
    assert p.Line() == q.Line();
  }

  lemma StepKeepsInv(q: Queue, a: Action, allowance: int)
    requires Inv(q)
    ensures Inv(q.Step(a, allowance))
  {
    hide Inv;
    hide IsDisable;
    match a
    case Send(f, now, locked) => SentKeepsInv(q, f, now, locked, allowance);
    case Take => if q.sender.Idle? && q.tx != [] { TakeKeepsInv(q); }
    case CheckFailure =>
      if q.sender.Taken? {
        if q.failed && !q.sender.item.Disables() {
          DropKeepsInv(q);
        } else {
          AdvanceKeepsInv(q, Cleared(q.sender.item));
        }
      }
    case CheckDeadline(at) =>
      if q.sender.Cleared? {
        if at > q.sender.item.deadline {
          DropKeepsInv(q);
          LatchedKeepsInv(q.Drop());
        } else {
          AdvanceKeepsInv(q, Timely(q.sender.item));
        }
      }
    case HandOver(ok) =>
      if q.sender.Timely? {
        HandOverKeepsInv(q);
        LatchedKeepsInv(q.(sender := Idle, trace := q.trace + [Handed(q.sender.item, q.failed)]));
      }
    case ReceiveFails => LatchedKeepsInv(q);
  }

  lemma {:induction false} RunKeepsInv(q: Queue, actions: seq<Action>, allowance: int)
    requires Inv(q)
    ensures Inv(Run(q, actions, allowance))
    decreases |actions|
  {
    hide Inv;
    if actions != [] {
      RunKeepsInv(q, actions[..|actions| - 1], allowance);
      StepKeepsInv(Run(q, actions[..|actions| - 1], allowance), actions[|actions| - 1], allowance);
    }
  }

  // ----- What every interleaving guarantees -----

  /**
   In the order of hand-over, under every interleaving: a disable is followed by no frame of
   its motor that was accepted before it, and motion frames keep the order of acceptance.
   */
  lemma DisableOvertakes(actions: seq<Action>, allowance: int, i: nat, j: nat)
    requires i < j < |Run(Empty, actions, allowance).trace|
    ensures var x, y := Run(Empty, actions, allowance).trace[i].item, Run(Empty, actions, allowance).trace[j].item;
      && (x.Disables() && x.frame.id == y.frame.id ==> x.serial < y.serial)
      && (!x.Disables() && !y.Disables() ==> x.serial < y.serial)
  {
    hide IsDisable;
    hide Inv;
    RunKeepsInv(Empty, actions, allowance) by { InvOfEmpty(); }
    hide Run;
    OrderOfTrace(Run(Empty, actions, allowance), i, j);
  }

  /**
   So for the disable frame of a motor as the protocol encodes it: whatever motion frame of that motor and mode is
   handed over after it was accepted after it.
   */
  lemma EncodedDisableOvertakes(actions: seq<Action>, allowance: int, i: nat, j: nat, esc: nat,
                                c: P.PositionCommand, speed: Double)
    requires i < j < |Run(Empty, actions, allowance).trace| && ValidEsc(esc)
    ensures var x, y := Run(Empty, actions, allowance).trace[i].item, Run(Empty, actions, allowance).trace[j].item;
      && (x.frame == P.EncodeManagement(esc, P.Velocity, P.Disable).value ==>
            H.EncodeVelocity(esc, speed) == Success(y.frame) ==> x.serial < y.serial)
      && (x.frame == P.EncodeManagement(esc, P.PositionVelocity, P.Disable).value ==>
            P.EncodePositionVelocity(esc, c) == Success(y.frame) ==> x.serial < y.serial)
  {
    DisableOvertakes(actions, allowance, i, j);
    DisableIsRecognised(esc, P.Velocity, P.Disable);
    DisableIsRecognised(esc, P.PositionVelocity, P.Disable);
    DisableSharesIdentifier(esc, c, speed);
    hide IsDisable;
    hide Run;
    hide P.EncodeManagement;
    hide P.EncodePositionVelocity;
    hide H.EncodeVelocity;
  }

  lemma InvOfEmpty()
    ensures Inv(Empty)
  {
  }

  lemma OrderOfTrace(q: Queue, i: nat, j: nat)
    requires Inv(q) && i < j < |q.trace|
    ensures MayPrecede(q.trace[i].item, q.trace[j].item)
  {
    hide MayPrecede;
    hide LatchKept;
    assert q.Line()[i] == q.trace[i].item && q.Line()[j] == q.trace[j].item;
    assert MayPrecede(q.Line()[i], q.Line()[j]);
  }

  lemma ConservedNow(q: Queue)
    requires Inv(q)
    ensures multiset(q.accepted) ==
      multiset(HandedItems(q.trace)) + multiset(q.sender.Held()) + multiset(q.tx) + multiset(q.dropped)
    ensures forall i, j | 0 <= i < j < |q.accepted| :: q.accepted[i] != q.accepted[j]
    ensures |q.tx| <= 16
  {
    hide MayPrecede;
    hide LatchKept;
    hide HandedItems;
    hide IsDisable;
  }

  /** Every accepted frame is in exactly one place, exactly once; the queue never outgrows its capacity. */
  lemma FramesAreConserved(actions: seq<Action>, allowance: int)
    ensures var q := Run(Empty, actions, allowance);
      && multiset(q.accepted) == multiset(HandedItems(q.trace)) + multiset(q.sender.Held()) + multiset(q.tx)
        + multiset(q.dropped)
      && (forall i, j | 0 <= i < j < |q.accepted| :: q.accepted[i] != q.accepted[j])
      && |q.tx| <= 16
  {
    InvOfEmpty();
    RunKeepsInv(Empty, actions, allowance);
    hide Run;
    hide Inv;
    hide HandedItems;
    ConservedNow(Run(Empty, actions, allowance));
  }

  /** After the latch only disables leave, except at most one frame: the one already past its check, as the first. */
  lemma OnlyDisablesAfterFailure(actions: seq<Action>, allowance: int, i: nat, j: nat)
    requires i <= j < |Run(Empty, actions, allowance).trace|
    requires var q := Run(Empty, actions, allowance); q.trace[i].late && !q.trace[j].item.Disables()
    ensures var q := Run(Empty, actions, allowance); i == j && q.excused == Some(q.trace[i].item)
  {
    InvOfEmpty();
    RunKeepsInv(Empty, actions, allowance);
    hide Run;
    hide IsDisable;
    hide Lined;
    hide Sender.Held;
  }

  /** The exception is real: a motion frame past its check leaves after the callback has latched the failure. */
  lemma MotionCanLeaveAfterFailure(f: CanFrame, now: int, allowance: int)
    requires f.id <= 0x7FF && f.length <= 8 && !IsDisable(f) && 0 <= allowance
    ensures var actions := [Send(f, now, true), Take, CheckFailure, CheckDeadline(now), ReceiveFails, HandOver(true)];
      Run(Empty, actions, allowance).trace == [Handed(Item(f, now + allowance, 0), true)]
  {
    var a := [Send(f, now, true), Take, CheckFailure, CheckDeadline(now), ReceiveFails, HandOver(true)];
    var item := Item(f, now + allowance, 0);
    var queue: seq<Item>, trace: seq<Handed> := [], [];
    assert queue + [item] == [item] && trace + [Handed(item, true)] == [Handed(item, true)];
    hide IsDisable;
    assert a[..0] == [] && a[..6] == a;
    RunOneMore(Empty, a, 0, allowance);
    assert Run(Empty, a[..1], allowance) == Empty.(tx := [item], accepted := [item]);
    RunOneMore(Empty, a, 1, allowance);
    RunOneMore(Empty, a, 2, allowance);
    RunOneMore(Empty, a, 3, allowance);
    RunOneMore(Empty, a, 4, allowance);
    RunOneMore(Empty, a, 5, allowance);
  }

  lemma RunOneMore(q: Queue, a: seq<Action>, k: nat, allowance: int)
    requires k < |a|
    ensures Run(q, a[..k + 1], allowance) == Run(q, a[..k], allowance).Step(a[k], allowance)
  {
    assert a[..k + 1][..k] == a[..k];
  }

  /** Latching a failure, then letting the sender finish the frame it holds, hands over a motion frame. */
  predicate MotionLeavesAfter(q: Queue, at: int, ok: bool) {
    var p := q.Step(ReceiveFails, 0).Step(CheckFailure, 0).Step(CheckDeadline(at), 0).Step(HandOver(ok), 0);
    |p.trace| > |q.trace| && !p.trace[|q.trace|].item.Disables()
  }

  /** When a failure strikes, a motion frame can still leave exactly when the sender holds it past its check. */
  lemma FailureExcusesIff(q: Queue)
    requires Inv(q) && !q.failed
    ensures (exists at: int, ok: bool :: MotionLeavesAfter(q, at, ok)) <==>
      q.sender.PastCheck() && !q.sender.item.Disables()
  {
    hide IsDisable;
    hide Inv;
    if q.sender.PastCheck() && !q.sender.item.Disables() {
      assert MotionLeavesAfter(q, q.sender.item.deadline, true);
    }
  }

  lemma UnfailedExcusesNone(q: Queue)
    requires Inv(q)
    ensures !q.failed ==> q.excused == None
  {
  }

  // ----- The queue as the two threads update it -----

  class UsbTransport {
    const allowance: int
    var tx: seq<Item>
    var failed: bool
    ghost var sender: Sender
    ghost var accepted: seq<Item>
    ghost var trace: seq<Handed>
    ghost var dropped: seq<Item>
    ghost var excused: Option<Item>
    var serial: nat

    ghost function View(): Queue
      reads this
    {
      Queue(tx, sender, failed, accepted, trace, dropped, excused)
    }

    ghost predicate Valid()
      reads this
    {
      Inv(View()) && serial == |accepted|
    }

    constructor (allowance: int)
      ensures Valid() && View() == Empty && this.allowance == allowance
    {
      this.allowance := allowance;
      tx, failed, sender, accepted, trace, dropped, excused, serial := [], false, Idle, [], [], [], None, 0;
    }

    /**
     Appends, or for a disable frame purges its motor and prepends. After a failure, for a bad frame or when full
     it refuses.
     */
    method Send(frame: CanFrame, now: int, locked: bool) returns (code: Code)
      requires Valid()
      modifies this
      ensures Valid()
      ensures (View(), code) == old(View()).Sent(frame, now, locked, allowance)
      ensures code == Ok ==>
        var item := Item(frame, now + allowance, old(serial));
        && accepted == old(accepted) + [item]
        && tx == if IsDisable(frame) then [item] + Without(old(tx), frame.id) else old(tx) + [item]
      ensures code != Ok ==> accepted == old(accepted)
      ensures code == Ok <==>
        && frame.id <= 0x7FF && frame.length <= 8 && locked
        && (if IsDisable(frame) then |Without(old(tx), frame.id)| < 16 else !failed && |old(tx)| < 16)
      ensures failed == old(failed) && sender == old(sender) && trace == old(trace)
    {
      hide Inv;
      hide Without;
      hide Only;
      hide HandedItems;
      SentKeepsInv(View(), frame, now, locked, allowance);
      if frame.id > 0x7FF || frame.length > 8 {
        return InvalidFrame;
      }
      if !locked {
        return WouldBlock;
      }
      var disable := frame.length == 8 && frame.data[7] == 0xFD;
      for i := 0 to 7
        invariant disable <==>
          frame.length == 8 && frame.data[7] == 0xFD && forall k | 0 <= k < i :: frame.data[k] == 0xFF
      {
        disable := disable && frame.data[i] == 0xFF;
      }
      if disable {
        Purge(frame.id);
      }
      if failed && !disable {
        return BusError;
      }
      if |tx| >= Capacity {
        return WouldBlock;
      }
      var item := Item(frame, now + allowance, serial);
      if disable {
        tx := [item] + tx;
      } else {
        tx := tx + [item];
      }
      accepted, serial := accepted + [item], serial + 1;
      return Ok;
    }

    method Purge(id: nat)
      modifies this`tx, this`dropped
      ensures tx == Without(old(tx), id) && dropped == old(dropped) + Only(old(tx), id)
      ensures forall x: Item :: multiset(tx)[x] == if x.frame.id == id then 0 else multiset(old(tx))[x]
    {
      forall x: Item
        ensures multiset(Without(tx, id))[x] == if x.frame.id == id then 0 else multiset(tx)[x]
      {
        WithoutIsExact(tx, id, x);
      }
      var kept: seq<Item> := [];
      for i := 0 to |tx|
        invariant kept == Without(tx[..i], id)
      {
        assert tx[..i + 1][..i] == tx[..i];
        if tx[i].frame.id != id {
          kept := kept + [tx[i]];
        }
      }
      assert tx[..|tx|] == tx;
      dropped := dropped + Only(tx, id);
      tx := kept;
    }

    /** The receive callback found its inbox full. */
    method ReceiveOverflow()
      requires Valid()
      modifies this`failed, this`excused
      ensures Valid() && View() == old(View()).Latched() && failed
    {
      hide Inv;
      hide HandedItems;
      hide IsDisable;
      LatchedKeepsInv(View());
      excused := View().Latched().excused;
      failed := true;
    }

    // One round of the sender thread, cut where it holds no lock: callers and the receive
    // callback may act between any two of the next four methods.

    method TakeNext() returns (item: Item)
      requires Valid() && sender.Idle? && tx != []
      modifies this`tx, this`sender
      ensures Valid() && View() == old(View()).Step(Take, allowance)
      ensures sender == Taken(item) && item == old(tx)[0] && tx == old(tx)[1..]
    {
      hide Inv;
      hide HandedItems;
      hide IsDisable;
      TakeKeepsInv(View());
      item := tx[0];
      tx := tx[1..];
      sender := Taken(item);
    }

    method PassesFailureCheck(item: Item) returns (proceed: bool)
      requires Valid() && sender == Taken(item)
      modifies this`sender, this`dropped
      ensures Valid() && View() == old(View()).Step(CheckFailure, allowance)
      ensures proceed <==> !failed || IsDisable(item.frame)
      ensures if proceed then sender == Cleared(item) && dropped == old(dropped)
              else sender.Idle? && dropped == old(dropped) + [item]
    {
      hide Inv;
      hide HandedItems;
      hide IsDisable;
      StepKeepsInv(View(), CheckFailure, allowance);
      proceed := !failed || IsDisable(item.frame);
      if proceed {
        sender := Cleared(item);
      } else {
        dropped := dropped + [item];
        sender := Idle;
      }
    }

    method PassesDeadline(item: Item, now: int) returns (proceed: bool)
      requires Valid() && sender == Cleared(item)
      modifies this`sender, this`dropped, this`failed, this`excused
      ensures Valid() && View() == old(View()).Step(CheckDeadline(now), allowance)
      ensures proceed <==> now <= item.deadline
      ensures if proceed then sender == Timely(item) && failed == old(failed) && dropped == old(dropped)
              else sender.Idle? && failed && dropped == old(dropped) + [item]
    {
      hide Inv;
      hide HandedItems;
      hide IsDisable;
      UnfailedExcusesNone(View());
      StepKeepsInv(View(), CheckDeadline(now), allowance);
      proceed := now <= item.deadline;
      if proceed {
        sender := Timely(item);
      } else {
        dropped := dropped + [item];
        sender := Idle;
        failed := true;
      }
    }

    /** `ok` is what the adapter call returned, and whether it was quick enough. */
    method HandToAdapter(item: Item, ok: bool)
      requires Valid() && sender == Timely(item)
      modifies this`sender, this`trace, this`failed, this`excused
      ensures Valid() && View() == old(View()).Step(HandOver(ok), allowance)
      ensures sender.Idle? && trace == old(trace) + [Handed(item, old(failed))] && (failed <==> old(failed) || !ok)
    {
      hide Inv;
      hide HandedItems;
      hide IsDisable;
      UnfailedExcusesNone(View());
      StepKeepsInv(View(), HandOver(ok), allowance);
      trace := trace + [Handed(item, failed)];
      sender := Idle;
      if !ok {
        failed := true;
      }
    }
  }
}
