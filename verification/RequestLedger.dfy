/**
 The bookkeeping of management requests: which ids are known, where each pending request
 is, and what has been published. Requests move from the stop slot or the queue through
 the manager to the transmit thread; a relative motion stays with the transmit thread
 after its start has succeeded.
 */
module RequestLedger {
  import opened Binary32
  import opened Can

  type Id = string

  datatype Operation = Enable | Disable | Stop | Clear | Relative

  /** A relative goal as received; kinds 1, 2 and 3 are distance, turn and wheel angle. */
  datatype RawGoal = RawGoal(kind: nat, value: Double, maxSpeed: Double, timeout: Double)

  /** What a request is told apart by when its id is seen again. */
  datatype Payload = Payload(operation: Operation, disableAfter: bool, expectedFault: nat, goal: RawGoal)

  datatype Request = Request(operation: Operation, id: Id, disableAfter: bool, generation: nat, goal: RawGoal)

  datatype Status = Pending | Succeeded | Failed | Cancelled

  datatype Event = Event(id: Id, status: Status)

  function StatusOf(code: Code): (s: Status)
    ensures s != Pending
  {
    if code == Ok then Succeeded else if code == NotExecuted then Cancelled else Failed
  }

  // ----- Where the pending requests are -----

  /**
   `flying` is the request the manager waits for, with its outcome once there is one;
   `active` is the relative motion under way, `ending` one taken down but not yet published.
   */
  datatype Places = Places(
    queue: seq<Request>, stop: Option<Request>, flying: Option<Request>, outcome: Option<Code>,
    active: Option<Request>, ending: Option<Request>)
  {
    /** A relative motion that started well has left the manager for good. */
    function Waiting(): Option<Request> {
      if flying.Some? && flying.value.operation == Relative && outcome == Some(Ok) then None else flying
    }

    /** How many pending requests have this id. */
    function Holds(id: Id): nat {
      One(stop, id) + Count(queue, id) + One(Waiting(), id) + One(active, id) + One(ending, id)
    }

    function HoldsRelative(id: Id): nat {
      OneRelative(stop, id) + CountRelative(queue, id) + OneRelative(Waiting(), id)
        + OneRelative(active, id) + OneRelative(ending, id)
    }

    predicate Sorted() {
      && (stop.Some? ==> stop.value.operation == Stop)
      && (forall i | 0 <= i < |queue| :: queue[i].operation != Stop)
      && (active.Some? ==> active.value.operation == Relative)
      && (ending.Some? ==> ending.value.operation == Relative)
      && (outcome.Some? ==> flying.Some?)
    }

    predicate CanTake() { flying.None? && (stop.Some? || queue != []) }

    /** The manager takes the stop slot first, then the queue in order. */
    function Take(): Places
      requires CanTake()
    {
      if stop.Some? then this.(flying := stop, stop := None)
      else this.(flying := Some(queue[0]), queue := queue[1..])
    }

    /** The transmit thread answers the manager; a well-started relative motion becomes the active one. */
    function Answered(code: Code): Places
      requires flying.Some? && outcome.None?
    {
      var p := this.(outcome := Some(code));
      if flying.value.operation == Relative && code == Ok then p.(active := flying) else p
    }

    function Collected(): Places { this.(flying := None, outcome := None) }

    /** The transmit thread takes the active relative motion down. */
    function Detached(): Places { this.(ending := active, active := None) }

    function Ended(): Places { this.(ending := None) }

    function Entered(r: Request): Places {
      if r.operation == Stop then this.(stop := Some(r)) else this.(queue := queue + [r])
    }
  }

  function One(r: Option<Request>, id: Id): nat { if r.Some? && r.value.id == id then 1 else 0 }

  function OneRelative(r: Option<Request>, id: Id): nat {
    if r.Some? && r.value.operation == Relative && r.value.id == id then 1 else 0
  }

  function Count(s: seq<Request>, id: Id): nat {
    if s == [] then 0 else One(Some(s[0]), id) + Count(s[1..], id)
  }

  function CountRelative(s: seq<Request>, id: Id): nat {
    if s == [] then 0 else OneRelative(Some(s[0]), id) + CountRelative(s[1..], id)
  }

  lemma {:induction false} CountAppend(s: seq<Request>, r: Request, id: Id)
    ensures Count(s + [r], id) == Count(s, id) + One(Some(r), id)
    ensures CountRelative(s + [r], id) == CountRelative(s, id) + OneRelative(Some(r), id)
  {
    if s != [] {
      CountAppend(s[1..], r, id);
      assert (s + [r])[1..] == s[1..] + [r];
    } else {
      assert (s + [r])[1..] == [];
    }
  }

  // ----- What is known and what has been published -----

  /** `accepted` and `terminal` are the history: every acceptance and every final result, in order. */
  datatype Book = Book(
    results: map<Id, Status>, fingerprints: map<Id, Payload>, completed: seq<Id>, events: seq<Event>,
    relativeActive: bool, relativeId: Id, accepted: seq<Id>, terminal: seq<Event>)
  {
    function Entered(r: Request, payload: Payload): Book {
      var b := this.(results := results[r.id := Pending], fingerprints := fingerprints[r.id := payload],
                     accepted := accepted + [r.id]);
      if r.operation == Relative then b.(relativeActive := true, relativeId := r.id) else b
    }

    function Published(r: Request, status: Status): Book {
      var e := Event(r.id, status);
      var b := this.(results := results[r.id := status], events := events + [e], completed := completed + [r.id],
                     terminal := terminal + [e]);
      if r.operation == Relative && relativeId == r.id then b.(relativeActive := false) else b
    }

    /** Forgets the oldest published results beyond the history, and at most one event. */
    function Pruned(history: nat): Book {
      var b := Forget(history);
      if |events| > history then b.(events := events[1..]) else b
    }

    function Forget(history: nat): (b: Book)
      ensures b.events == events
      decreases |completed|
    {
      if |completed| <= history then this
      else
        this.(results := results - {completed[0]}, fingerprints := fingerprints - {completed[0]},
          completed := completed[1..])
            .Forget(history)
    }
  }

  /** How many final results this id has had. */
  function Finals(s: seq<Event>, id: Id): nat {
    if s == [] then 0 else Finals(s[..|s| - 1], id) + if s[|s| - 1].id == id then 1 else 0
  }

  // ----- The ledger -----

  datatype Ledger = Ledger(places: Places, book: Book) {
    /** Enters an accepted request; a new stop supersedes the one still waiting. */
    function Accept(r: Request, payload: Payload, history: nat): Ledger {
      var b := book.Entered(r, payload);
      var c := if r.operation == Stop && places.stop.Some? then b.Published(places.stop.value, Cancelled) else b;
      Ledger(places.Entered(r), c.Pruned(history))
    }

    function Take(): Ledger
      requires places.CanTake()
    {
      this.(places := places.Take())
    }

    function Answered(code: Code): Ledger
      requires places.flying.Some? && places.outcome.None?
    {
      this.(places := places.Answered(code))
    }

    /** `finish`: publishes the final result of a request that has left its place. */
    function Finished(r: Request, code: Code, history: nat): Ledger {
      this.(book := book.Published(r, StatusOf(code)).Pruned(history))
    }

    /** The manager collects the outcome and publishes it, except that of a started relative motion. */
    function Collected(history: nat): Ledger
      requires places.flying.Some? && places.outcome.Some?
    {
      var r, code := places.flying.value, places.outcome.value;
      var l := this.(places := places.Collected());
      if r.operation != Relative || code != Ok then l.Finished(r, code, history) else l
    }

    function Detached(): Ledger { this.(places := places.Detached()) }

    /** The transmit thread publishes the relative motion it took down. */
    function Ended(code: Code, history: nat): Ledger
      requires places.ending.Some?
    {
      this.(places := places.Ended()).Finished(places.ending.value, code, history)
    }

    function EventsTaken(): Ledger { this.(book := book.(events := [])) }
  }

  const NoRequests :=
    Ledger(Places([], None, None, None, None, None), Book(map[], map[], [], [], false, "", [], []))

  // ----- The invariant -----

  /**
   Every known id is pending or completed, exactly once; its result says which. The flag
   for the relative motion names the only one pending. Every acceptance of an id has had
   one final result, but for the one that is pending.
   */
  ghost predicate Core(p: Places, b: Book) {
    && KnownOnce(p, b.completed, b.results)
    && b.fingerprints.Keys == b.results.Keys
    && StatusTells(p, b.results)
    && FlagTells(p, b.relativeActive, b.relativeId)
    && HistoryTells(p, b.accepted, b.terminal)
  }

  ghost predicate KnownOnce(p: Places, completed: seq<Id>, results: map<Id, Status>) {
    forall id :: p.Holds(id) + multiset(completed)[id] == if id in results then 1 else 0
  }

  ghost predicate StatusTells(p: Places, results: map<Id, Status>) {
    forall id | id in results :: results[id] == Pending <==> p.Holds(id) == 1
  }

  ghost predicate FlagTells(p: Places, relativeActive: bool, relativeId: Id) {
    forall id :: p.HoldsRelative(id) == if relativeActive && id == relativeId then 1 else 0
  }

  ghost predicate HistoryTells(p: Places, accepted: seq<Id>, terminal: seq<Event>) {
    forall id :: multiset(accepted)[id] == Finals(terminal, id) + p.Holds(id)
  }

  ghost predicate Inv(l: Ledger, history: nat, capacity: nat) {
    && l.places.Sorted() && Core(l.places, l.book)
    && |l.book.completed| <= history && |l.book.events| <= history && |l.places.queue| <= capacity
  }

  // ----- Places -----

  /** The same requests are pending, in other places. */
  ghost predicate Moved(p: Places, q: Places) {
    q.Sorted() && forall id :: q.Holds(id) == p.Holds(id) && q.HoldsRelative(id) == p.HoldsRelative(id)
  }

  /** `q` has the request `r` beside those of `p`. */
  ghost predicate Adds(p: Places, q: Places, r: Request) {
    && (forall id :: q.Holds(id) == p.Holds(id) + One(Some(r), id))
    && (forall id :: q.HoldsRelative(id) == p.HoldsRelative(id) + OneRelative(Some(r), id))
  }

  lemma TakeMoves(p: Places)
    requires p.Sorted() && p.CanTake()
    ensures Moved(p, p.Take())
  {
  }

  lemma AnswerMoves(p: Places, code: Code)
    requires p.Sorted() && p.flying.Some? && p.outcome.None?
    requires p.flying.value.operation == Relative ==> p.active.None?
    ensures Moved(p, p.Answered(code))
  {
  }

  lemma DetachMoves(p: Places)
    requires p.Sorted() && p.ending.None?
    ensures Moved(p, p.Detached())
  {
  }

  lemma CollectRemoves(p: Places)
    requires p.Sorted() && p.flying.Some? && p.outcome.Some?
    ensures p.Collected().Sorted()
    ensures p.Waiting().Some? ==> Adds(p.Collected(), p, p.flying.value)
    ensures p.Waiting().None? ==> Moved(p, p.Collected())
  {
  }

  lemma EndRemoves(p: Places)
    requires p.Sorted() && p.ending.Some?
    ensures p.Ended().Sorted() && Adds(p.Ended(), p, p.ending.value)
  {
  }

  lemma EnterAdds(p: Places, r: Request)
    requires p.Sorted() && (r.operation == Stop ==> p.stop.None?)
    ensures p.Entered(r).Sorted() && Adds(p, p.Entered(r), r)
  {
    forall id
      ensures Count(p.queue + [r], id) == Count(p.queue, id) + One(Some(r), id)
      ensures CountRelative(p.queue + [r], id) == CountRelative(p.queue, id) + OneRelative(Some(r), id)
    {
      CountAppend(p.queue, r, id);
    }
  }

  lemma SupersedeRemoves(p: Places)
    requires p.Sorted() && p.stop.Some?
    ensures p.(stop := None).Sorted() && Adds(p.(stop := None), p, p.stop.value)
  {
  }

  /** Only one relative motion is ever pending, so the slots of the transmit thread are free when needed. */
  lemma RelativeSlots(p: Places, b: Book)
    requires p.Sorted() && Core(p, b)
    ensures p.active.Some? ==> p.ending.None?
    ensures p.Waiting().Some? && p.Waiting().value.operation == Relative ==> p.active.None? && p.ending.None?
  {
    if p.active.Some? { assert p.HoldsRelative(p.active.value.id) <= 1; }
    if p.ending.Some? { assert p.HoldsRelative(p.ending.value.id) <= 1; }
    if p.Waiting().Some? { assert p.HoldsRelative(p.Waiting().value.id) <= 1; }
  }

  // ----- The book -----

  lemma MoveKeepsCore(p: Places, q: Places, b: Book)
    requires Core(p, b) && Moved(p, q)
    ensures Core(q, b)
  {
  }

  lemma PublishKeepsKnown(p: Places, q: Places, completed: seq<Id>, results: map<Id, Status>, r: Request,
                          status: Status)
    requires KnownOnce(p, completed, results) && StatusTells(p, results) && Adds(q, p, r) && status != Pending
    ensures KnownOnce(q, completed + [r.id], results[r.id := status]) && StatusTells(q, results[r.id := status])
    ensures r.id in results
  {
  }

  lemma PublishKeepsFlag(p: Places, q: Places, active: bool, relativeId: Id, r: Request)
    requires FlagTells(p, active, relativeId) && Adds(q, p, r)
    ensures FlagTells(q, active && !(r.operation == Relative && relativeId == r.id), relativeId)
  {
  }

  lemma PublishKeepsHistory(p: Places, q: Places, accepted: seq<Id>, terminal: seq<Event>, r: Request, status: Status)
    requires HistoryTells(p, accepted, terminal) && Adds(q, p, r)
    ensures HistoryTells(q, accepted, terminal + [Event(r.id, status)])
  {
  }

  lemma PublishKeepsCore(p: Places, q: Places, b: Book, r: Request, status: Status)
    requires Core(p, b) && Adds(q, p, r) && status != Pending
    ensures Core(q, b.Published(r, status))
  {
    PublishKeepsKnown(p, q, b.completed, b.results, r, status);
    PublishKeepsFlag(p, q, b.relativeActive, b.relativeId, r);
    PublishKeepsHistory(p, q, b.accepted, b.terminal, r, status);
    hide KnownOnce;
    hide StatusTells;
    hide FlagTells;
    hide HistoryTells;
    hide Adds;
    KeysGrow(b.results, r.id, status);
    assert b.results.Keys + {r.id} == b.results.Keys;
  }

  lemma EnterKeepsKnown(p: Places, q: Places, completed: seq<Id>, results: map<Id, Status>, r: Request)
    requires KnownOnce(p, completed, results) && StatusTells(p, results) && Adds(p, q, r) && r.id !in results
    ensures KnownOnce(q, completed, results[r.id := Pending]) && StatusTells(q, results[r.id := Pending])
  {
  }

  lemma EnterKeepsHistory(p: Places, q: Places, accepted: seq<Id>, terminal: seq<Event>, r: Request)
    requires HistoryTells(p, accepted, terminal) && Adds(p, q, r)
    ensures HistoryTells(q, accepted + [r.id], terminal)
  {
  }

  lemma EnterKeepsFlag(p: Places, q: Places, active: bool, relativeId: Id, r: Request)
    requires FlagTells(p, active, relativeId) && Adds(p, q, r) && (r.operation == Relative ==> !active)
    ensures if r.operation == Relative then FlagTells(q, true, r.id) else FlagTells(q, active, relativeId)
  {
  }

  lemma EnterKeepsCore(p: Places, q: Places, b: Book, r: Request, payload: Payload)
    requires Core(p, b) && Adds(p, q, r) && r.id !in b.results && (r.operation == Relative ==> !b.relativeActive)
    ensures Core(q, b.Entered(r, payload))
  {
    EnterKeepsKnown(p, q, b.completed, b.results, r);
    EnterKeepsFlag(p, q, b.relativeActive, b.relativeId, r);
    EnterKeepsHistory(p, q, b.accepted, b.terminal, r);
    hide KnownOnce;
    hide StatusTells;
    hide FlagTells;
    hide HistoryTells;
    hide Adds;
    KeysGrow(b.fingerprints, r.id, payload);
    KeysGrow(b.results, r.id, Pending);
  }

  lemma KeysGrow<T>(m: map<Id, T>, id: Id, value: T)
    ensures m[id := value].Keys == m.Keys + {id}
  {
  }

  lemma {:induction false} ForgetKeepsCore(p: Places, b: Book, history: nat)
    requires Core(p, b)
    ensures Core(p, b.Forget(history)) && |b.Forget(history).completed| <= history
    decreases |b.completed|
  {
    hide Places.Holds;
    hide Places.HoldsRelative;
    hide Finals;
    if |b.completed| > history {
      var id := b.completed[0];
      var next := b.(results := b.results - {id}, fingerprints := b.fingerprints - {id}, completed := b.completed[1..]);
      assert b.completed == [id] + next.completed;
      assert multiset(b.completed)[id] >= 1;
      assert next.fingerprints.Keys == b.fingerprints.Keys - {id} && next.results.Keys == b.results.Keys - {id};
      ForgetKeepsCore(p, next, history);
    }
  }

  /** Forgetting drops the oldest completed ids beyond the history with all that is known of them, and nothing else. */
  lemma {:induction false} ForgetDropsOldest(b: Book, history: nat)
    ensures var next, drop := b.Forget(history), if |b.completed| <= history then 0 else |b.completed| - history;
      && next == b.(results := next.results, fingerprints := next.fingerprints, completed := b.completed[drop..])
      && (forall id :: id in next.results <==> id in b.results && id !in b.completed[..drop])
      && (forall id :: id in next.fingerprints <==> id in b.fingerprints && id !in b.completed[..drop])
      && (forall id | id in next.results :: next.results[id] == b.results[id])
      && (forall id | id in next.fingerprints :: next.fingerprints[id] == b.fingerprints[id])
    decreases |b.completed|
  {
    if |b.completed| > history {
      var id, drop := b.completed[0], |b.completed| - history;
      var next := b.(results := b.results - {id}, fingerprints := b.fingerprints - {id}, completed := b.completed[1..]);
      ForgetDropsOldest(next, history);
      assert b.completed[..drop] == [id] + next.completed[..drop - 1];
      assert b.completed[drop..] == next.completed[drop - 1..];
    }
  }

  /** What is published of a request says how it ended; only the oldest event gives way, when there are too many. */
  lemma FinishedTells(l: Ledger, r: Request, code: Code, history: nat)
    ensures var b, status := l.Finished(r, code, history).book,
                             if code == Ok then Succeeded else if code == NotExecuted then Cancelled else Failed;
      && b.terminal == l.book.terminal + [Event(r.id, status)] && b.accepted == l.book.accepted
      && (r.id in b.results ==> b.results[r.id] == status)
      && b.events == (l.book.events + [Event(r.id, status)])[if |l.book.events| < history then 0 else 1..]
      && (b.relativeActive <==> l.book.relativeActive && !(r.operation == Relative && r.id == l.book.relativeId))
  {
    ForgetDropsOldest(l.book.Published(r, StatusOf(code)), history);
    hide Book.Forget;
  }

  lemma EventsDoNotMatter(p: Places, b: Book, events: seq<Event>)
    requires Core(p, b)
    ensures Core(p, b.(events := events))
  {
  }

  lemma PruneKeepsInv(p: Places, b: Book, history: nat, capacity: nat)
    requires p.Sorted() && Core(p, b) && |b.events| <= history + 1 && |p.queue| <= capacity
    ensures Inv(Ledger(p, b.Pruned(history)), history, capacity)
  {
    hide Places.Sorted;
    ForgetKeepsCore(p, b, history);
    if |b.events| > history { EventsDoNotMatter(p, b.Forget(history), b.events[1..]); }
    hide Core;
  }

  // ----- Every step keeps the invariant -----

  lemma TakeKeepsInv(l: Ledger, history: nat, capacity: nat)
    requires Inv(l, history, capacity) && l.places.CanTake()
    ensures Inv(l.Take(), history, capacity)
  {
    hide Core;
    hide Moved;
    TakeMoves(l.places);
    MoveKeepsCore(l.places, l.places.Take(), l.book);
    assert l.places.Take().Sorted() by { SortedAfterMove(l.places, l.places.Take()); }
  }

  lemma SortedAfterMove(p: Places, q: Places)
    requires Moved(p, q)
    ensures q.Sorted()
  {
  }

  lemma AnswerKeepsInv(l: Ledger, code: Code, history: nat, capacity: nat)
    requires Inv(l, history, capacity) && l.places.flying.Some? && l.places.outcome.None?
    ensures Inv(l.Answered(code), history, capacity)
  {
    hide Core;
    hide Moved;
    RelativeSlots(l.places, l.book);
    AnswerMoves(l.places, code);
    MoveKeepsCore(l.places, l.places.Answered(code), l.book);
    SortedAfterMove(l.places, l.places.Answered(code));
  }

  lemma DetachKeepsInv(l: Ledger, history: nat, capacity: nat)
    requires Inv(l, history, capacity) && l.places.active.Some?
    ensures l.places.ending.None? && Inv(l.Detached(), history, capacity)
  {
    hide Core;
    hide Moved;
    RelativeSlots(l.places, l.book);
    DetachMoves(l.places);
    MoveKeepsCore(l.places, l.places.Detached(), l.book);
    SortedAfterMove(l.places, l.places.Detached());
  }

  lemma CollectKeepsInv(l: Ledger, history: nat, capacity: nat)
    requires Inv(l, history, capacity) && l.places.flying.Some? && l.places.outcome.Some?
    ensures Inv(l.Collected(history), history, capacity)
  {
    hide Core;
    hide Moved;
    hide Adds;
    var p, r, code := l.places, l.places.flying.value, l.places.outcome.value;
    CollectRemoves(p);
    if r.operation != Relative || code != Ok {
      PublishKeepsCore(p, p.Collected(), l.book, r, StatusOf(code));
      PruneKeepsInv(p.Collected(), l.book.Published(r, StatusOf(code)), history, capacity);
    } else {
      MoveKeepsCore(p, p.Collected(), l.book);
    }
  }

  lemma EndKeepsInv(l: Ledger, code: Code, history: nat, capacity: nat)
    requires Inv(l, history, capacity) && l.places.ending.Some?
    ensures Inv(l.Ended(code, history), history, capacity)
  {
    hide Core;
    hide Adds;
    var p, r := l.places, l.places.ending.value;
    EndRemoves(p);
    PublishKeepsCore(p, p.Ended(), l.book, r, StatusOf(code));
    PruneKeepsInv(p.Ended(), l.book.Published(r, StatusOf(code)), history, capacity);
  }

  /** A request may be entered when its id is new, there is room, and no second relative motion comes of it. */
  predicate Acceptable(l: Ledger, r: Request, capacity: nat) {
    && r.id !in l.book.results
    && (r.operation != Stop ==> |l.places.queue| < capacity)
    && (r.operation == Relative ==> !l.book.relativeActive)
  }

  lemma AcceptKeepsInv(l: Ledger, r: Request, payload: Payload, history: nat, capacity: nat)
    requires Inv(l, history, capacity) && Acceptable(l, r, capacity)
    ensures Inv(l.Accept(r, payload, history), history, capacity)
  {
    hide Core;
    hide Adds;
    var p, b := l.places, l.book.Entered(r, payload);
    if r.operation == Stop && p.stop.Some? {
      SupersedeRemoves(p);
      EnterAdds(p.(stop := None), r);
      SupersedeKeepsCore(p, l.book, r, payload);
      PruneKeepsInv(p.Entered(r), b.Published(p.stop.value, Cancelled), history, capacity);
    } else {
      EnterAdds(p, r);
      EnterKeepsCore(p, p.Entered(r), l.book, r, payload);
      PruneKeepsInv(p.Entered(r), b, history, capacity);
    }
  }

  /** What is entered is pending, once, and known as such; a relative motion is the flagged one. */
  lemma EnteredIsPending(l: Ledger, r: Request, payload: Payload, history: nat, capacity: nat)
    requires Inv(l, history, capacity) && Acceptable(l, r, capacity)
    ensures var next := l.Accept(r, payload, history);
      && next.places.Holds(r.id) == 1 && r.id in next.book.results && next.book.results[r.id] == Pending
      && (r.operation == Stop ==> next.places.stop == Some(r))
      && (r.operation == Relative ==> next.places.HoldsRelative(r.id) == 1 && next.book.relativeId == r.id)
  {
    AcceptKeepsInv(l, r, payload, history, capacity);
    var next := l.Accept(r, payload, history);
    CountAppend(l.places.queue, r, r.id);
    assert next.places.Holds(r.id) >= 1 && (r.operation == Relative ==> next.places.HoldsRelative(r.id) >= 1);
    hide Places.Holds;
    hide Places.HoldsRelative;
    PendingIsKnown(next.places, next.book, r.id);
  }

  lemma PendingIsKnown(p: Places, b: Book, id: Id)
    requires Core(p, b)
    ensures p.Holds(id) >= 1 ==> p.Holds(id) == 1 && id in b.results && b.results[id] == Pending
    ensures p.HoldsRelative(id) >= 1 ==> p.HoldsRelative(id) == 1 && b.relativeActive && b.relativeId == id
  {
  }

  /** Publishing the stop that was waiting and entering the new one commute. */
  lemma SupersedeKeepsCore(p: Places, b: Book, r: Request, payload: Payload)
    requires p.Sorted() && Core(p, b) && p.stop.Some? && r.operation == Stop && r.id !in b.results
    ensures Core(p.Entered(r), b.Entered(r, payload).Published(p.stop.value, Cancelled))
  {
    hide Core;
    hide Adds;
    var gone, free, full := p.stop.value, p.(stop := None), p.Entered(r);
    SupersedeRemoves(p);
    PublishKeepsCore(p, free, b, gone, Cancelled);
    assert gone.id in b.results by { HeldIsKnown(p, free, b, gone); }
    EnterAdds(free, r);
    EnterKeepsCore(free, full, b.Published(gone, Cancelled), r, payload);
    assert b.Published(gone, Cancelled).Entered(r, payload) == b.Entered(r, payload).Published(gone, Cancelled);
  }

  lemma HeldIsKnown(p: Places, q: Places, b: Book, r: Request)
    requires Core(p, b) && Adds(q, p, r)
    ensures r.id in b.results
  {
  }

  // ----- What the invariant means -----

  function Slot(r: Option<Request>): (s: set<Id>)
    ensures |s| == if r.Some? then 1 else 0
  {
    if r.Some? then {r.value.id} else {}
  }

  function QueueIds(s: seq<Request>): set<Id> {
    if s == [] then {} else {s[0].id} + QueueIds(s[1..])
  }

  lemma {:induction false} QueueIdsCover(s: seq<Request>, id: Id)
    ensures (Count(s, id) > 0 ==> id in QueueIds(s)) && |QueueIds(s)| <= |s|
  {
    if s != [] { QueueIdsCover(s[1..], id); }
  }

  function Elements(s: seq<Id>): set<Id> { if s == [] then {} else {s[0]} + Elements(s[1..]) }

  lemma {:induction false} ElementsCover(s: seq<Id>, id: Id)
    ensures (id in s ==> id in Elements(s)) && |Elements(s)| <= |s|
  {
    if s != [] { ElementsCover(s[1..], id); }
  }

  function Elsewhere(p: Places): set<Id> { Slot(p.stop) + Slot(p.Waiting()) + (Slot(p.active) + Slot(p.ending)) }

  lemma ElsewhereIsSmall(p: Places, b: Book)
    requires p.Sorted() && Core(p, b)
    ensures |Elsewhere(p)| <= 3
  {
    RelativeSlots(p, b);
    hide Core;
    var x, y, z := Slot(p.stop), Slot(p.Waiting()), Slot(p.active) + Slot(p.ending);
    assert |z| <= 1 && |x + y| <= 2;
  }

  lemma KnownIsSomewhere(p: Places, b: Book, id: Id)
    requires Core(p, b) && id in b.results
    ensures id in Elsewhere(p) + QueueIds(p.queue) + Elements(b.completed)
  {
    QueueIdsCover(p.queue, id);
    ElementsCover(b.completed, id);
    assert p.Holds(id) + multiset(b.completed)[id] == 1;
    hide Core;
  }

  /** The results never outgrow the history, the queue and the three places outside it. */
  lemma ResultsAreBounded(l: Ledger, history: nat, capacity: nat)
    requires Inv(l, history, capacity)
    ensures |l.book.results| <= history + capacity + 3
  {
    var p, b := l.places, l.book;
    ElsewhereIsSmall(p, b);
    QueueIdsCover(p.queue, "");
    ElementsCover(b.completed, "");
    var all := Elsewhere(p) + QueueIds(p.queue) + Elements(b.completed);
    forall id | id in b.results.Keys
      ensures id in all
    {
      KnownIsSomewhere(p, b, id);
    }
    hide Core;
    hide Elsewhere;
    SubsetIsSmaller(b.results.Keys, all);
    assert |Elsewhere(p) + QueueIds(p.queue)| <= 3 + capacity;
  }

  lemma SubsetIsSmaller(a: set<Id>, b: set<Id>)
    requires a <= b
    ensures |a| <= |b|
  {
    assert b == a + (b - a);
  }
}
