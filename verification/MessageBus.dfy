/**
 * The asynchronous event bus: publishers, one worker thread and any number of closing threads around a
 * bounded queue. Each method of the class is one indivisible step of one thread; a run is any
 * interleaving of them. The ghost fields record what was put on, taken off and handed over.
 */
module MessageBus {
  import opened Basics
  import opened Delegation

  datatype Event = Event(eventType: Name, payload: Payload)

  datatype Item = Carries(event: Event) | Sentinel

  /** Where the worker thread is; `TimedOut` is between an empty wait and the look at the stop flag. */
  datatype Worker = Waiting | TimedOut | Holding(item: Item) | Exited(onSentinel: bool)

  /** A closing thread has found the bus open, or has set the stop flag, or is done. */
  datatype Closer = FoundOpen | FlagSet | Joining

  datatype Channel = Channel(
    capacity: nat,
    queue: seq<Item>,
    stopped: bool,
    worker: Worker,
    closers: map<int, Closer>,
    put: seq<Item>,
    taken: seq<Item>,
    handed: seq<Event>)

  datatype Move =
    | Publish(event: Event)
    | Take
    | TimeOut
    | LookAtFlag
    | Handle
    | FindOpen(thread: int)
    | SetFlag(thread: int)
    | PutSentinel(thread: int)

  function Opened(queueSize: int): Channel {
    Channel(Max(queueSize, 1), [], false, Waiting, map[], [], [], [])
  }

  function Enqueue(s: Channel, item: Item): Channel {
    if |s.queue| < s.capacity then s.(queue := s.queue + [item], put := s.put + [item]) else s
  }

  /** One step; a step whose thread is elsewhere changes nothing. */
  function Step(s: Channel, m: Move): Channel {
    match m
    case Publish(event) => Enqueue(s, Carries(event))
    case Take =>
      if s.worker.Waiting? && s.queue != []
      then s.(queue := s.queue[1..], taken := s.taken + [s.queue[0]], worker := Holding(s.queue[0])) else s
    case TimeOut => if s.worker.Waiting? && s.queue == [] then s.(worker := TimedOut) else s
    case LookAtFlag =>
      if s.worker.TimedOut? then s.(worker := if s.stopped then Exited(false) else Waiting) else s
    case Handle =>
      if !s.worker.Holding? then s
      else
        (match s.worker.item
         case Sentinel => s.(worker := Exited(true))
         case Carries(event) => s.(worker := Waiting, handed := s.handed + [event]))
    case FindOpen(thread) =>
      if thread !in s.closers && !s.stopped then s.(closers := s.closers[thread := FoundOpen]) else s
    case SetFlag(thread) =>
      if thread in s.closers && s.closers[thread].FoundOpen?
      then s.(stopped := true, closers := s.closers[thread := FlagSet]) else s
    case PutSentinel(thread) =>
      if thread in s.closers && s.closers[thread].FlagSet?
      then Enqueue(s, Sentinel).(closers := s.closers[thread := Joining]) else s
  }

  function Run(s: Channel, moves: seq<Move>): Channel
    decreases |moves|
  {
    if moves == [] then s else Run(Step(s, moves[0]), moves[1..])
  }

  datatype Published = Queued | Dropped | Raised

  class AsyncMessageBus {
    const capacity: nat
    const failOpen: bool
    var queue: seq<Item>
    var stopped: bool
    var worker: Worker
    var closers: map<int, Closer>
    ghost var put: seq<Item>
    ghost var taken: seq<Item>
    var handed: seq<Event>

    ghost function State(): Channel
      reads this
    {
      Channel(capacity, queue, stopped, worker, closers, put, taken, handed)
    }

    constructor (queueSize: int, failOpen: bool)
      ensures State() == Opened(queueSize) && this.failOpen == failOpen
    {
      capacity, this.failOpen := Max(queueSize, 1), failOpen;
      queue, stopped, worker, closers := [], false, Waiting, map[];
      put, taken, handed := [], [], [];
    }

    /** A full queue drops the event or raises, and changes nothing. */
    method PublishEvent(event: Event) returns (r: Published)
      modifies this
      ensures State() == Step(old(State()), Publish(event))
      ensures r == if |old(queue)| < capacity then Queued else if failOpen then Dropped else Raised
      ensures r.Queued? <==> put == old(put) + [Carries(event)]
      ensures if failOpen then !r.Raised? else !r.Dropped?
    {
      if |queue| < capacity {
        queue := queue + [Carries(event)];
        put := put + [Carries(event)];
        return Queued;
      }
      r := if failOpen then Dropped else Raised;
    }

    /** `get` returns an item, or times out on an empty queue. */
    method Get()
      requires worker.Waiting?
      modifies this
      ensures State() == Step(old(State()), if old(queue) != [] then Take else TimeOut)
    {
      if queue != [] {
        worker := Holding(queue[0]);
        taken := taken + [queue[0]];
        queue := queue[1..];
      } else {
        worker := TimedOut;
      }
    }

    method CheckStopped()
      requires worker.TimedOut?
      modifies this
      ensures State() == Step(old(State()), LookAtFlag)
    {
      worker := if stopped then Exited(false) else Waiting;
    }

    /** Handing an event over counts whether or not the inner bus raises: errors are only logged. */
    method HandleItem()
      requires worker.Holding?
      modifies this
      ensures State() == Step(old(State()), Handle)
    {
      match worker.item {
        case Sentinel =>
          worker := Exited(true);
        case Carries(event) =>
          handed := handed + [event];
          worker := Waiting;
      }
    }

    method CloseCheck(thread: int)
      requires thread !in closers
      modifies this
      ensures State() == Step(old(State()), FindOpen(thread))
    {
      if stopped {
        return;
      }
      closers := closers[thread := FoundOpen];
    }

    method CloseSetFlag(thread: int)
      requires thread in closers && closers[thread].FoundOpen?
      modifies this
      ensures State() == Step(old(State()), SetFlag(thread))
    {
      stopped := true;
      closers := closers[thread := FlagSet];
    }

    method ClosePutSentinel(thread: int)
      requires thread in closers && closers[thread].FlagSet?
      modifies this
      ensures State() == Step(old(State()), PutSentinel(thread))
    {
      if |queue| < capacity {
        queue := queue + [Sentinel];
        put := put + [Sentinel];
      }
      closers := closers[thread := Joining];
    }
  }

  // ----- order, capacity and delivery -----

  function EventsIn(item: Item): seq<Event> {
    match item
    case Carries(event) => [event]
    case Sentinel => []
  }

  /** The events among some items. */
  function Events(items: seq<Item>): seq<Event> {
    if items == [] then [] else EventsIn(items[0]) + Events(items[1..])
  }

  lemma {:induction false} EventsConcat(a: seq<Item>, b: seq<Item>)
    ensures Events(a + b) == Events(a) + Events(b)
  {
    hide EventsIn;
    if a == [] {
      assert a + b == b;
    } else {
      EventsConcat(a[1..], b);
      EventsConcatStep(a[0], a[1..], b);
      assert [a[0]] + a[1..] == a;
    }
  }

  lemma EventsConcatStep(item: Item, rest: seq<Item>, b: seq<Item>)
    requires Events(rest + b) == Events(rest) + Events(b)
    ensures Events(([item] + rest) + b) == Events([item] + rest) + Events(b)
  {
    hide Events, EventsIn;
    EventsCons(item, rest + b);
    EventsCons(item, rest);
    assert ([item] + rest) + b == [item] + (rest + b);
    assert EventsIn(item) + (Events(rest) + Events(b)) == EventsIn(item) + Events(rest) + Events(b);
  }

  lemma EventsCons(item: Item, rest: seq<Item>)
    ensures Events([item] + rest) == EventsIn(item) + Events(rest)
  {
    assert ([item] + rest)[1..] == rest;
  }

  function InFlight(w: Worker): seq<Item> {
    if w.Holding? then [w.item] else []
  }

  /** The items the worker is through with. */
  function Finished(s: Channel): seq<Item>
    requires s.worker.Holding? ==> s.taken != []
  {
    if s.worker.Holding? then s.taken[..|s.taken| - 1] else s.taken
  }

  ghost predicate Invariant(s: Channel) {
    && |s.queue| <= s.capacity
    && s.put == s.taken + s.queue
    && (s.worker.Holding? ==> s.taken != [] && s.taken[|s.taken| - 1] == s.worker.item)
    && s.handed == Events(Finished(s))
    && (if s.worker == Exited(true) then
          s.taken != [] && s.taken[|s.taken| - 1].Sentinel? && Sentinel !in s.taken[..|s.taken| - 1]
        else Sentinel !in Finished(s))
    && (Sentinel in s.put ==> s.stopped)
    && (s.worker.Exited? ==> s.stopped)
    && (forall t :: t in s.closers && !s.closers[t].FoundOpen? ==> s.stopped)
  }

  lemma TakeInvariant(s: Channel)
    requires Invariant(s) && s.worker.Waiting? && s.queue != []
    ensures Invariant(Step(s, Take)) && s.put == Step(s, Take).put && s.handed == Step(s, Take).handed
  {
    hide Events;
    assert (s.taken + [s.queue[0]]) + s.queue[1..] == s.put;
    assert Finished(Step(s, Take)) == s.taken;
  }

  lemma HandleInvariant(s: Channel)
    requires Invariant(s) && s.worker.Holding?
    ensures Invariant(Step(s, Handle)) && s.put == Step(s, Handle).put && s.handed <= Step(s, Handle).handed
  {
    hide Events;
    var done := s.taken[..|s.taken| - 1];
    assert s.taken == done + [s.worker.item];
    EventsConcat(done, [s.worker.item]);
    EventsOne(s.worker.item);
  }

  lemma StepInvariant(s: Channel, m: Move)
    requires Invariant(s)
    ensures Invariant(Step(s, m))
    ensures s.put <= Step(s, m).put && s.handed <= Step(s, m).handed
  {
    hide Invariant, Events;
    match m
    case Publish(event) => EnqueueInvariant(s, Carries(event));
    case PutSentinel(thread) => PutSentinelInvariant(s, thread);
    case Take =>
      if s.worker.Waiting? && s.queue != [] {
        TakeInvariant(s);
      }
    case Handle =>
      if s.worker.Holding? {
        HandleInvariant(s);
      }
    case _ => FlagInvariant(s, m);
  }

  lemma FlagInvariant(s: Channel, m: Move)
    requires Invariant(s) && (m.TimeOut? || m.LookAtFlag? || m.FindOpen? || m.SetFlag?)
    ensures Invariant(Step(s, m)) && s.put == Step(s, m).put && s.handed == Step(s, m).handed
  {
    hide Events;
  }

  lemma PutSentinelInvariant(s: Channel, thread: int)
    requires Invariant(s)
    ensures Invariant(Step(s, PutSentinel(thread)))
    ensures s.put <= Step(s, PutSentinel(thread)).put && s.handed == Step(s, PutSentinel(thread)).handed
  {
    hide Events;
    if thread in s.closers && s.closers[thread].FlagSet? {
      EnqueueInvariant(s, Sentinel);
    }
  }

  lemma EventsOne(item: Item)
    ensures Events([item]) == if item.Carries? then [item.event] else []
  {
    assert [item][1..] == [];
  }

  lemma EnqueueInvariant(s: Channel, item: Item)
    requires Invariant(s) && (item.Sentinel? ==> s.stopped)
    ensures Invariant(Enqueue(s, item)) && s.put <= Enqueue(s, item).put && s.handed == Enqueue(s, item).handed
  {
    hide Events;
    assert s.put + [item] == s.taken + (s.queue + [item]);
  }

  lemma {:induction false} RunInvariant(s: Channel, moves: seq<Move>)
    requires Invariant(s)
    ensures Invariant(Run(s, moves))
    ensures s.put <= Run(s, moves).put && s.handed <= Run(s, moves).handed
    decreases |moves|
  {
    hide Invariant, Step;
    if moves != [] {
      StepInvariant(s, moves[0]);
      RunInvariant(Step(s, moves[0]), moves[1..]);
    }
  }

  /**
   * For every interleaving: the accepted events are, in order, those handed over, the one in flight and
   * those still queued; so events are handed over in order, without duplicates and without gaps. The
   * queue never exceeds its size, and the worker never exits before the bus is closed.
   */
  lemma DeliveryInOrder(queueSize: int, moves: seq<Move>)
    ensures
      var s := Run(Opened(queueSize), moves);
      && Events(s.put) == s.handed + Events(InFlight(s.worker)) + Events(s.queue)
      && |s.queue| <= Max(queueSize, 1)
      && (s.worker.Exited? ==> s.stopped)
  {
    RunInvariant(Opened(queueSize), moves);
    RunKeepsCapacity(Opened(queueSize), moves);
    Accepted(Run(Opened(queueSize), moves));
  }

  lemma Accepted(s: Channel)
    requires Invariant(s)
    ensures Events(s.put) == s.handed + Events(InFlight(s.worker)) + Events(s.queue)
  {
    hide Events;
    EventsConcat(s.taken, s.queue);
    if s.worker.Holding? {
      EventsConcat(Finished(s), [s.worker.item]);
      assert s.taken == Finished(s) + [s.worker.item];
    } else {
      NoEvents();
      assert s.handed + [] == s.handed;
    }
  }

  lemma {:induction false} RunKeepsCapacity(s: Channel, moves: seq<Move>)
    ensures Run(s, moves).capacity == s.capacity
    decreases |moves|
  {
    if moves != [] {
      RunKeepsCapacity(Step(s, moves[0]), moves[1..]);
    }
  }

  /** The items put on the queue before the first sentinel. */
  function AheadOfSentinel(items: seq<Item>): seq<Item> {
    if items == [] || items[0].Sentinel? then [] else [items[0]] + AheadOfSentinel(items[1..])
  }

  lemma {:induction false} AheadIs(a: seq<Item>, b: seq<Item>)
    requires Sentinel !in a
    ensures AheadOfSentinel(a + [Sentinel] + b) == a
  {
    if a == [] {
      assert a + [Sentinel] + b == [Sentinel] + b;
    } else {
      assert a[0] in a && forall x :: x in a[1..] ==> x in a;
      AheadIs(a[1..], b);
      assert (a + [Sentinel] + b)[1..] == a[1..] + [Sentinel] + b;
    }
  }

  /** If the worker exits on the sentinel, everything accepted ahead of it has been handed over, once and in order. */
  lemma SentinelMeansDrained(queueSize: int, moves: seq<Move>)
    requires Run(Opened(queueSize), moves).worker == Exited(true)
    ensures
      var s := Run(Opened(queueSize), moves);
      Sentinel in s.put && s.handed == Events(AheadOfSentinel(s.put))
  {
    RunInvariant(Opened(queueSize), moves);
    Drained(Run(Opened(queueSize), moves));
  }

  lemma Drained(s: Channel)
    requires Invariant(s) && s.worker == Exited(true)
    ensures Sentinel in s.put && s.handed == Events(AheadOfSentinel(s.put))
  {
    hide Events, AheadOfSentinel;
    var ahead := s.taken[..|s.taken| - 1];
    assert s.taken == ahead + [Sentinel] && s.put == ahead + [Sentinel] + s.queue;
    AheadIs(ahead, s.queue);
    EventsConcat(ahead, [Sentinel]);
    EventsOne(Sentinel);
  }

  // ----- progress of the worker -----

  /** The next step of a worker that nobody interferes with. */
  function WorkerMove(s: Channel): Move {
    match s.worker
    case Holding(_) => Handle
    case Waiting => if s.queue != [] then Take else TimeOut
    case _ => LookAtFlag
  }

  function Drain(s: Channel, n: nat): Channel
    decreases n
  {
    if n == 0 then s else Drain(Step(s, WorkerMove(s)), n - 1)
  }

  /**
   * Once a sentinel is queued, a worker left alone reaches it: two steps for each item ahead and for the
   * sentinel take it to a drained exit, unless it was just about to look at the flag.
   */
  lemma {:induction false} SentinelIsReached(s: Channel, ahead: seq<Item>, behind: seq<Item>)
    requires Invariant(s) && s.worker.Waiting? && s.queue == ahead + [Sentinel] + behind && Sentinel !in ahead
    ensures
      var t := Drain(s, 2 * |ahead| + 2);
      t.worker == Exited(true) && t.handed == s.handed + Events(ahead) && t.put == s.put
    decreases |ahead|
  {
    hide Invariant, Events;
    StepInvariant(s, Take);
    var held := Step(s, Take);
    StepInvariant(held, Handle);
    var next := Step(held, Handle);
    assert Drain(s, 2) == Drain(held, 1) == Drain(next, 0) == next;
    if ahead == [] {
      assert s.queue[0] == Sentinel;
      NoEvents();
    } else {
      assert s.queue[0] == ahead[0] && s.queue[1..] == ahead[1..] + [Sentinel] + behind;
      assert ahead[0] in ahead && forall x :: x in ahead[1..] ==> x in ahead;
      SentinelIsReached(next, ahead[1..], behind);
      EventsConcat([ahead[0]], ahead[1..]);
      assert [ahead[0]] + ahead[1..] == ahead;
      EventsOne(ahead[0]);
      assert Drain(s, 2 * |ahead| + 2) == Drain(held, 2 * |ahead| + 1) == Drain(next, 2 * |ahead|);
    }
  }

  /** Without a sentinel, a worker left alone hands everything over and waits. */
  lemma {:induction false} QueueIsDrained(s: Channel, more: nat)
    requires Invariant(s) && s.worker.Waiting? && Sentinel !in s.queue
    ensures
      var t := s.(queue := [], taken := s.put, handed := s.handed + Events(s.queue));
      Invariant(t) && Drain(s, 2 * |s.queue| + more) == Drain(t, more)
    decreases |s.queue|
  {
    hide Invariant, Events;
    if s.queue == [] {
      NoEvents();
      PutIsTaken(s);
      assert s.handed + [] == s.handed;
    } else {
      StepInvariant(s, Take);
      var held := Step(s, Take);
      StepInvariant(held, Handle);
      var next, item, rest := Step(held, Handle), s.queue[0], s.queue[1..];
      assert item in s.queue && forall x :: x in rest ==> x in s.queue;
      QueueIsDrained(next, more);
      EventsConcat([item], rest);
      EventsOne(item);
      assert [item] + rest == s.queue;
      assert s.handed + [item.event] + Events(rest) == s.handed + ([item.event] + Events(rest));
      assert Drain(s, 2 * |s.queue| + more) == Drain(held, 2 * |s.queue| + more - 1) == Drain(next, 2 * |rest| + more);
    }
  }

  lemma PutIsTaken(s: Channel)
    requires Invariant(s) && s.queue == []
    ensures s.put == s.taken
  {
  }

  /** An event accepted by a waiting, open bus is handed over by a worker left alone, after those before it. */
  lemma PublishedIsDelivered(s: Channel, event: Event)
    requires Invariant(s) && !s.stopped && s.worker.Waiting? && |s.queue| < s.capacity
    ensures Drain(Step(s, Publish(event)), 2 * |s.queue| + 2).handed == s.handed + Events(s.queue) + [event]
  {
    hide Invariant, Events;
    StepInvariant(s, Publish(event));
    NoSentinelYet(s);
    QueueIsDrained(Step(s, Publish(event)), 0);
    EventsConcat(s.queue, [Carries(event)]);
    EventsOne(Carries(event));
    assert s.handed + (Events(s.queue) + [event]) == s.handed + Events(s.queue) + [event];
  }

  lemma NoSentinelYet(s: Channel)
    requires Invariant(s) && !s.stopped
    ensures Sentinel !in s.queue && Sentinel !in s.put
    ensures s.worker.Waiting? ==> s.handed + Events(s.queue) == Events(s.put)
  {
    assert forall item :: item in s.queue ==> item in s.put;
    EventsConcat(s.taken, s.queue);
  }

  /** What a closing thread does to a bus that is open, undisturbed. */
  function Closed(s: Channel, thread: int): Channel {
    Step(Step(Step(s, FindOpen(thread)), SetFlag(thread)), PutSentinel(thread))
  }

  /** Closing a bus that is already closed does nothing. */
  lemma SecondCloseDoesNothing(s: Channel, thread: int)
    requires s.stopped && thread !in s.closers
    ensures Closed(s, thread) == s
  {
  }

  /**
   * A bus closed while its worker waits hands over everything accepted and stops, in two steps an item and
   * two more: on the sentinel if there was room for it, and otherwise on the flag, once the queue is empty.
   */
  lemma ClosedBusDrains(s: Channel, thread: int)
    requires Invariant(s) && !s.stopped && s.worker.Waiting? && thread !in s.closers
    ensures
      var t := Drain(Closed(s, thread), 2 * |s.queue| + 2);
      t.worker == Exited(|s.queue| < s.capacity) && t.handed == Events(s.put)
  {
    hide Invariant, Events;
    StepInvariant(s, FindOpen(thread));
    StepInvariant(Step(s, FindOpen(thread)), SetFlag(thread));
    StepInvariant(Step(Step(s, FindOpen(thread)), SetFlag(thread)), PutSentinel(thread));
    NoSentinelYet(s);
    var c := Closed(s, thread);
    if |s.queue| < s.capacity {
      assert c.queue == s.queue + [Sentinel] + [];
      SentinelIsReached(c, s.queue, []);
    } else {
      assert c.queue == s.queue;
      QueueIsDrained(c, 2);
      var t := c.(queue := [], taken := c.put, handed := c.handed + Events(c.queue));
      assert Drain(t, 2) == Drain(Step(t, TimeOut), 1) == Drain(Step(Step(t, TimeOut), LookAtFlag), 0);
    }
  }

  lemma NoEvents()
    ensures Events([]) == []
  {
  }

  /**
   * How an accepted event is lost: in any state where the worker has timed out but not yet looked
   * at the flag, an event is accepted, the bus is closed, and the worker sees the flag before the event.
   */
  lemma TimeoutRaceLosesEvent(s: Channel, event: Event, thread: int)
    requires s.worker.TimedOut? && !s.stopped && |s.queue| < s.capacity && thread !in s.closers
    ensures
      var t := Run(s, [Publish(event), FindOpen(thread), SetFlag(thread), PutSentinel(thread), LookAtFlag]);
      && t.worker == Exited(false) && t.handed == s.handed
      && s.put + [Carries(event)] <= t.put && s.queue + [Carries(event)] <= t.queue
  {
    var m := [Publish(event), FindOpen(thread), SetFlag(thread), PutSentinel(thread), LookAtFlag];
    var s1 := Step(s, m[0]);
    var s2 := Step(s1, m[1]);
    var s3 := Step(s2, m[2]);
    var s4 := Step(s3, m[3]);
    RunStep(s4, m[4..]);
    RunStep(s3, m[3..]);
    RunStep(s2, m[2..]);
    RunStep(s1, m[1..]);
    RunStep(s, m);
  }

  lemma RunStep(s: Channel, moves: seq<Move>)
    requires moves != []
    ensures Run(s, moves) == Run(Step(s, moves[0]), moves[1..])
  {
  }

  // ----- exactly which events a close loses -----

  /**
   * With the flag set and the items `before` on the queue by then: a worker that has timed out since, or
   * left without the sentinel, has taken all of them, and one that left on the sentinel more than them.
   */
  ghost predicate Draining(s: Channel, before: seq<Item>) {
    && s.stopped && before <= s.put && Sentinel !in before
    && (s.worker.TimedOut? || s.worker == Exited(false) ==> |s.taken| >= |before|)
    && (s.worker == Exited(true) ==> |s.taken| > |before|)
  }

  lemma StepDraining(s: Channel, m: Move, before: seq<Item>)
    requires Invariant(s) && Draining(s, before)
    ensures Draining(Step(s, m), before)
  {
    hide Events;
    StepInvariant(s, m);
    if m.Handle? && s.worker.Holding? && s.worker.item.Sentinel? {
      SentinelIsBehind(s, before);
    }
  }

  /** The sentinel was put after everything that was there before the flag. */
  lemma SentinelIsBehind(s: Channel, before: seq<Item>)
    requires Invariant(s) && Draining(s, before) && s.worker == Holding(Sentinel)
    ensures |s.taken| > |before|
  {
    var n := |s.taken| - 1;
    assert s.put[n] == s.taken[n] == Sentinel;
  }

  lemma {:induction false} RunDraining(s: Channel, moves: seq<Move>, before: seq<Item>)
    requires Invariant(s) && Draining(s, before)
    ensures Invariant(Run(s, moves)) && Draining(Run(s, moves), before)
    decreases |moves|
  {
    hide Invariant, Draining, Step;
    if moves != [] {
      StepInvariant(s, moves[0]);
      StepDraining(s, moves[0], before);
      RunDraining(Step(s, moves[0]), moves[1..], before);
    }
  }

  /** A worker that exited has handed over everything that was put before the flag. */
  lemma DrainedBefore(s: Channel, before: seq<Item>)
    requires Invariant(s) && Draining(s, before) && s.worker.Exited?
    ensures Events(before) <= s.handed
  {
    hide Events;
    assert before == s.taken[..|before|];
    EventsConcat(before, s.taken[|before|..]);
    assert s.taken == before + s.taken[|before|..];
  }

  /** A worker that timed out before the flag was set hands nothing more over. */
  lemma {:induction false} RunStuck(s: Channel, moves: seq<Move>)
    requires s.stopped && (s.worker.TimedOut? || s.worker == Exited(false))
    ensures Run(s, moves).handed == s.handed
    decreases |moves|
  {
    if moves != [] {
      RunStuck(Step(s, moves[0]), moves[1..]);
    }
  }

  /**
   * Exactly what a close loses, decided when a closing thread sets the flag on a bus still open: once the
   * worker has exited, whatever happened in between, every event accepted before the flag was handed over,
   * in order, if and only if the worker was not just between an empty wait and its look at the flag while
   * events were queued.
   */
  lemma CloseKeepsEventsExactly(s: Channel, thread: int, moves: seq<Move>)
    requires Invariant(s) && !s.stopped && thread in s.closers && s.closers[thread].FoundOpen?
    requires Run(Step(s, SetFlag(thread)), moves).worker.Exited?
    ensures Events(s.put) <= Run(Step(s, SetFlag(thread)), moves).handed
       <==> !(s.worker.TimedOut? && Events(s.queue) != [])
  {
    var flagged := Step(s, SetFlag(thread));
    if s.worker.TimedOut? && Events(s.queue) != [] {
      RunStuck(flagged, moves);
      EventsConcat(s.taken, s.queue);
      assert |Events(s.put)| > |s.handed|;
    } else {
      RunDraining(flagged, moves, s.put);
      DrainedBefore(Run(flagged, moves), s.put);
    }
  }
}
