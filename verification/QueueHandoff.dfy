/**
 The hand-off of one request queue of the cache between producer threads and the ticking thread, step by
 step (include/libserver/data/DataStorage.hpp, Request* and Process*Queue).

 A producer locks the queue, inserts its key, sets the flag and unlocks. The consumer exchanges the flag
 without the lock; only if it was set does it lock the queue, handle every key, clear the set and unlock.
 Steps of different threads interleave in any order. A ticket is one request: several tickets may ask for
 the same key, and all of them are served when that key is handled.
 */
module QueueHandoff {
  datatype Ticket<Key> = Ticket(id: nat, key: Key)

  datatype Producer<Key> =
    | Idle
    | Locked(key: Key)
    | Inserted(ticket: Ticket<Key>)
    | Flagged

  datatype Consumer<Key> =
    | Waiting
    | Exchanged
    | Draining(todo: set<Key>)
    | Cleared

  datatype Holder = Free | Held(producer: nat) | HeldByConsumer

  datatype State<Key> = State(
    flag: bool,
    data: set<Key>,
    holder: Holder,
    producers: map<nat, Producer<Key>>,
    consumer: Consumer<Key>,
    waiting: set<Ticket<Key>>, // the tickets inserted but not yet served
    nextTicket: nat,
    passes: nat) // the passes of the consumer over the queue that have ended

  datatype Step<Key> =
    | Lock(producer: nat, key: Key)
    | Insert(producer: nat)
    | SetFlag(producer: nat)
    | Unlock(producer: nat)
    | Exchange
    | BeginDrain
    | Handle(key: Key)
    | Clear
    | EndDrain

  predicate Enabled<Key>(s: State<Key>, step: Step<Key>) {
    match step
    case Lock(p, _) => p in s.producers && s.producers[p].Idle? && s.holder.Free?
    case Insert(p) => p in s.producers && s.producers[p].Locked?
    case SetFlag(p) => p in s.producers && s.producers[p].Inserted?
    case Unlock(p) => p in s.producers && s.producers[p].Flagged?
    case Exchange => s.consumer.Waiting?
    case BeginDrain => s.consumer.Exchanged? && s.holder.Free?
    case Handle(key) => s.consumer.Draining? && key in s.consumer.todo
    case Clear => s.consumer.Draining? && s.consumer.todo == {}
    case EndDrain => s.consumer.Cleared?
  }

  ghost function Next<Key>(s: State<Key>, step: Step<Key>): State<Key>
    requires Enabled(s, step)
  {
    match step
    case Lock(p, key) => s.(producers := s.producers[p := Locked(key)], holder := Held(p))
    case Insert(p) =>
      var ticket := Ticket(s.nextTicket, s.producers[p].key);
      s.(
        producers := s.producers[p := Inserted(ticket)],
        data := s.data + {ticket.key},
        waiting := s.waiting + {ticket},
        nextTicket := s.nextTicket + 1)
    case SetFlag(p) => s.(producers := s.producers[p := Flagged], flag := true)
    case Unlock(p) => s.(producers := s.producers[p := Idle], holder := Free)
    case Exchange =>
      if s.flag then s.(flag := false, consumer := Exchanged) else s.(passes := s.passes + 1)
    case BeginDrain => s.(consumer := Draining(s.data), holder := HeldByConsumer)
    case Handle(key) =>
      s.(
        consumer := Draining(s.consumer.todo - {key}),
        waiting := set ticket | ticket in s.waiting && ticket.key != key)
    case Clear => s.(consumer := Cleared, data := {})
    case EndDrain => s.(consumer := Waiting, holder := Free, passes := s.passes + 1)
  }

  ghost predicate Trace<Key>(s: State<Key>, steps: seq<Step<Key>>)
    decreases |steps|
  {
    steps == [] || (Enabled(s, steps[0]) && Trace(Next(s, steps[0]), steps[1..]))
  }

  ghost function After<Key>(s: State<Key>, steps: seq<Step<Key>>): State<Key>
    requires Trace(s, steps)
    decreases |steps|
  {
    if steps == [] then s else After(Next(s, steps[0]), steps[1..])
  }

  ghost function Start<Key>(producers: set<nat>): State<Key> {
    State(false, {}, Free, map p | p in producers :: Idle, Waiting, {}, 0, 0)
  }

  // ---------------------------------------------------------------------------------------------
  // The invariant.

  /** The lock is held exactly by the thread that is between its lock and its unlock. */
  ghost predicate Exclusive<Key>(s: State<Key>) {
    && (forall p | p in s.producers :: !s.producers[p].Idle? <==> s.holder == Held(p))
    && (s.holder.Held? ==> s.holder.producer in s.producers)
    && (s.consumer.Draining? || s.consumer.Cleared? <==> s.holder.HeldByConsumer?)
  }

  /** While a ticket waits its key is in the queue, and still to be handled if a drain is under way. */
  ghost predicate Queued<Key>(s: State<Key>, ticket: Ticket<Key>) {
    && ticket.id < s.nextTicket
    && ticket.key in s.data
    && (s.consumer.Draining? ==> ticket.key in s.consumer.todo)
    && !s.consumer.Cleared?
  }

  ghost predicate JustInserted<Key>(s: State<Key>, ticket: Ticket<Key>) {
    exists p | p in s.producers :: s.producers[p] == Inserted(ticket)
  }

  /** No wake-up is lost: the flag is set, or the producer is about to set it, or the consumer has
      exchanged it and is still to clear the queue. */
  ghost predicate Awake<Key>(s: State<Key>, ticket: Ticket<Key>) {
    s.flag || s.consumer.Exchanged? || s.consumer.Draining? || JustInserted(s, ticket)
  }

  ghost predicate Inv<Key(!new)>(s: State<Key>) {
    && Exclusive(s)
    && (forall ticket | ticket in s.waiting :: Queued(s, ticket) && Awake(s, ticket))
    && (s.consumer.Draining? ==> s.consumer.todo <= s.data)
    && (s.consumer.Cleared? ==> s.data == {})
  }

  lemma NextKeepsInv<Key(!new)>(s: State<Key>, step: Step<Key>)
    requires Inv(s) && Enabled(s, step)
    ensures Inv(Next(s, step))
  {
    var s' := Next(s, step);
    forall ticket | ticket in s'.waiting
      ensures Awake(s', ticket)
    {
      if ticket in s.waiting {
        assert Awake(s, ticket);
        if !s'.flag && !s'.consumer.Exchanged? && !s'.consumer.Draining? {
          var p :| p in s.producers && s.producers[p] == Inserted(ticket);
          assert s.holder == Held(p);
          assert s'.producers[p] == Inserted(ticket);
        }
      } else {
        assert s'.producers[step.producer] == Inserted(ticket);
      }
    }
  }

  lemma {:induction false} AlwaysInv<Key(!new)>(s: State<Key>, steps: seq<Step<Key>>)
    requires Inv(s) && Trace(s, steps)
    ensures Inv(After(s, steps))
    decreases |steps|
  {
    if steps != [] {
      NextKeepsInv(s, steps[0]);
      AlwaysInv(Next(s, steps[0]), steps[1..]);
    }
  }

  /** In every interleaving, a waiting request keeps the hand-off awake. */
  lemma NoLostWakeUp<Key(!new)>(producers: set<nat>, steps: seq<Step<Key>>, ticket: Ticket<Key>)
    requires Trace(Start<Key>(producers), steps)
    requires ticket in After(Start(producers), steps).waiting
    ensures Awake(After(Start(producers), steps), ticket)
  {
    AlwaysInv(Start<Key>(producers), steps);
  }

  // ---------------------------------------------------------------------------------------------
  // Every request is served.

  /** A request whose producer has set the flag is handled before the consumer ends one more pass:
      the pass under way if there is one, otherwise the next, which cannot return early. */
  lemma {:induction false} ServedByNextPass<Key(!new)>(s: State<Key>, steps: seq<Step<Key>>, ticket: Ticket<Key>)
    requires Inv(s) && Trace(s, steps)
    requires ticket in s.waiting && !JustInserted(s, ticket)
    requires After(s, steps).passes > s.passes
    ensures Handle(ticket.key) in steps
    ensures ticket !in After(s, steps).waiting
    decreases |steps|
  {
    if steps != [] {
      var s' := Next(s, steps[0]);
      NextKeepsInv(s, steps[0]);
      if ticket in s'.waiting {
        assert !JustInserted(s', ticket) by {
          forall p | p in s'.producers
            ensures s'.producers[p] != Inserted(ticket)
          {
            assert p in s.producers;
          }
        }
        assert s'.passes == s.passes;
        ServedByNextPass(s', steps[1..], ticket);
      } else {
        StaysServed(s', steps[1..], ticket);
      }
    }
  }

  lemma {:induction false} StaysServed<Key(!new)>(s: State<Key>, steps: seq<Step<Key>>, ticket: Ticket<Key>)
    requires Trace(s, steps) && ticket !in s.waiting && ticket.id < s.nextTicket
    ensures ticket !in After(s, steps).waiting
    decreases |steps|
  {
    if steps != [] {
      StaysServed(Next(s, steps[0]), steps[1..], ticket);
    }
  }

  // ---------------------------------------------------------------------------------------------
  // Progress.

  datatype Thread = TheProducer(id: nat) | TheConsumer

  function ThreadOf<Key>(step: Step<Key>): Thread {
    match step
    case Lock(p, _) => TheProducer(p)
    case Insert(p) => TheProducer(p)
    case SetFlag(p) => TheProducer(p)
    case Unlock(p) => TheProducer(p)
    case _ => TheConsumer
  }

  predicate Holds<Key>(s: State<Key>, t: Thread) {
    if t.TheProducer? then s.holder == Held(t.id) else s.holder.HeldByConsumer?
  }

  predicate Exists<Key>(s: State<Key>, t: Thread) {
    t.TheProducer? ==> t.id in s.producers
  }

  ghost predicate CanMove<Key(!new)>(s: State<Key>, t: Thread) {
    exists step :: Enabled(s, step) && ThreadOf(step) == t
  }

  /** The steps the holder of the lock is away from releasing it. */
  function Work<Key>(s: State<Key>): nat {
    match s.holder
    case Free => 0
    case Held(p) =>
      if p !in s.producers then 0
      else
        (match s.producers[p]
         case Idle => 0
         case Locked(_) => 3
         case Inserted(_) => 2
         case Flagged => 1)
    case HeldByConsumer =>
      (match s.consumer
       case Draining(todo) => 2 + |todo|
       case _ => 1)
  }

  /** The holder of the lock can always move. Any other thread can move if the lock is free, and a thread
      that cannot is waiting for the lock. */
  lemma NoDeadlock<Key(!new)>(s: State<Key>, t: Thread, key: Key)
    requires Inv(s) && Exists(s, t)
    ensures Holds(s, t) || s.holder.Free? ==> CanMove(s, t)
    ensures !CanMove(s, t) ==>
      if t.TheProducer? then s.producers[t.id].Idle? else s.consumer.Exchanged?
  {
    if t.TheProducer? {
      match s.producers[t.id]
      case Idle => assert ThreadOf(Lock(t.id, key)) == t && (s.holder.Free? ==> Enabled(s, Lock(t.id, key)));
      case Locked(_) => assert Enabled<Key>(s, Insert(t.id)) && ThreadOf<Key>(Insert(t.id)) == t;
      case Inserted(_) => assert Enabled<Key>(s, SetFlag(t.id)) && ThreadOf<Key>(SetFlag(t.id)) == t;
      case Flagged => assert Enabled<Key>(s, Unlock(t.id)) && ThreadOf<Key>(Unlock(t.id)) == t;
    } else {
      match s.consumer
      case Waiting => assert Enabled<Key>(s, Exchange) && ThreadOf<Key>(Exchange) == t;
      case Exchanged => assert ThreadOf<Key>(BeginDrain) == t && (s.holder.Free? ==> Enabled<Key>(s, BeginDrain));
      case Draining(todo) =>
        if todo == {} {
          assert Enabled<Key>(s, Clear) && ThreadOf<Key>(Clear) == t;
        } else {
          var next :| next in todo;
          assert Enabled(s, Handle(next)) && ThreadOf(Handle(next)) == t;
        }
      case Cleared => assert Enabled<Key>(s, EndDrain) && ThreadOf<Key>(EndDrain) == t;
    }
  }

  /** Every step of the holder brings it closer to releasing the lock, and no step of another thread takes
      it away or delays it. */
  lemma HolderAdvances<Key(!new)>(s: State<Key>, step: Step<Key>, t: Thread)
    requires Inv(s) && Enabled(s, step) && Exists(s, t) && Holds(s, t)
    ensures
      var s' := Next(s, step);
      if ThreadOf(step) == t
      then Work(s') == Work(s) - 1 && (if Work(s') == 0 then s'.holder.Free? else Holds(s', t))
      else Work(s') == Work(s) && Holds(s', t) && Exists(s', t)
  {
  }

  function StepsOf<Key>(steps: seq<Step<Key>>, t: Thread): nat {
    if steps == [] then 0 else (if ThreadOf(steps[0]) == t then 1 else 0) + StepsOf(steps[1..], t)
  }

  ghost predicate BecomesFree<Key>(s: State<Key>, steps: seq<Step<Key>>)
    requires Trace(s, steps)
    decreases |steps|
  {
    s.holder.Free? || (steps != [] && BecomesFree(Next(s, steps[0]), steps[1..]))
  }

  /** Whoever holds the lock releases it within a bounded number of its own steps, whatever the others do. */
  lemma {:induction false} LockIsReleased<Key(!new)>(s: State<Key>, steps: seq<Step<Key>>, t: Thread)
    requires Inv(s) && Trace(s, steps) && Exists(s, t) && Holds(s, t)
    requires StepsOf(steps, t) >= Work(s)
    ensures BecomesFree(s, steps)
    decreases |steps|
  {
    if steps != [] {
      var s' := Next(s, steps[0]);
      HolderAdvances(s, steps[0], t);
      NextKeepsInv(s, steps[0]);
      if !s'.holder.Free? {
        LockIsReleased(s', steps[1..], t);
      }
    }
  }

  // ---------------------------------------------------------------------------------------------
  // No pass without a request.

  function SignalsIn<Key>(steps: seq<Step<Key>>): nat {
    if steps == [] then 0 else (if steps[0].SetFlag? then 1 else 0) + SignalsIn(steps[1..])
  }

  function DrainsIn<Key>(steps: seq<Step<Key>>): nat {
    if steps == [] then 0 else (if steps[0].BeginDrain? then 1 else 0) + DrainsIn(steps[1..])
  }

  /** A signal that no drain has used up yet. */
  function Unused<Key>(s: State<Key>): nat {
    (if s.flag then 1 else 0) + if s.consumer.Exchanged? then 1 else 0
  }

  /** The queue is drained at most once for every time its flag is set, in every interleaving: nothing else makes the
      consumer take the lock. */
  lemma {:induction false} DrainsAreRequested<Key(!new)>(s: State<Key>, steps: seq<Step<Key>>)
    requires Trace(s, steps)
    ensures DrainsIn(steps) + Unused(After(s, steps)) <= SignalsIn(steps) + Unused(s)
    decreases |steps|
  {
    if steps != [] {
      var s' := Next(s, steps[0]);
      assert (if steps[0].BeginDrain? then 1 else 0) + Unused(s')
        <= (if steps[0].SetFlag? then 1 else 0) + Unused(s);
      DrainsAreRequested(s', steps[1..]);
    }
  }
}
