/**
 The cooperative scheduler of src/libserver/util/Scheduler.cpp as functions on values: a job list and a
 cursor into it that survives between ticks.
 */
module SchedulerModel {
  import opened Wrappers

  datatype Job<T> = Job(when: int, task: T)

  /** An iterator at the end of the list stays at the end when a job is appended, so "at the end" is a
      position of its own and not the index one past the last job. */
  datatype Cursor = AtEnd | At(index: nat)

  datatype State<T> = State(jobs: seq<Job<T>>, cursor: Cursor) {
    predicate Valid() {
      cursor.At? ==> cursor.index < |jobs|
    }

    /** The index the next tick looks at first. */
    function First(): nat {
      if cursor.At? then cursor.index else 0
    }
  }

  /** What a task does to the scheduler: the jobs it queues, and whether it ends by throwing. */
  datatype Effect<T> = Effect(queued: seq<Job<T>>, throws: bool)

  /** The first job from index `i` on that is due when it is looked at; |jobs| if there is none. The clock
      is read anew for every job: `clock(n)` is the reading for the n-th job of the tick. */
  function FirstDue<T>(jobs: seq<Job<T>>, i: nat, clock: nat -> int, n: nat): (r: nat)
    requires i <= |jobs|
    ensures i <= r <= |jobs|
    ensures r < |jobs| ==> clock(n + r - i) >= jobs[r].when
    ensures forall k | i <= k < r :: clock(n + k - i) < jobs[k].when
    decreases |jobs| - i
  {
    if i == |jobs| || clock(n) >= jobs[i].when then i else FirstDue(jobs, i + 1, clock, n + 1)
  }

  function CursorAt<T>(jobs: seq<Job<T>>, i: nat): Cursor {
    if i < |jobs| then At(i) else AtEnd
  }

  function Queue<T>(s: State<T>, job: Job<T>): State<T> {
    s.(jobs := s.jobs + [job])
  }

  /** The cursor moves to the job to execute, or to the end if no job from the cursor on is due. */
  function Advance<T>(s: State<T>, clock: nat -> int): State<T>
    requires s.Valid()
  {
    if s.jobs == [] then s else s.(cursor := CursorAt(s.jobs, FirstDue(s.jobs, s.First(), clock, 0)))
  }

  function Erase<T>(s: State<T>): State<T>
    requires s.Valid() && s.cursor.At?
  {
    var jobs := s.jobs[..s.cursor.index] + s.jobs[s.cursor.index + 1..];
    State(jobs, CursorAt(jobs, s.cursor.index))
  }

  /** The job the tick executes, if any. */
  function Executed<T>(s: State<T>, clock: nat -> int): Option<Job<T>>
    requires s.Valid()
  {
    var found := Advance(s, clock);
    if s.jobs != [] && found.cursor.At? then Some(found.jobs[found.cursor.index]) else None
  }

  lemma AdvanceIs<T>(s: State<T>, clock: nat -> int, due: nat)
    requires s.Valid() && s.jobs != [] && due == FirstDue(s.jobs, s.First(), clock, 0)
    ensures Advance(s, clock) == State(s.jobs, CursorAt(s.jobs, due))
    ensures Executed(s, clock) == if due < |s.jobs| then Some(s.jobs[due]) else None
  {
  }

  function Tick<T>(s: State<T>, clock: nat -> int, effect: Job<T> -> Effect<T>): State<T>
    requires s.Valid()
  {
    var found := Advance(s, clock);
    match Executed(s, clock)
    case None => found
    case Some(job) => Erase(found.(jobs := found.jobs + effect(job).queued))
  }

  // ---------------------------------------------------------------------------------------------
  // Runs.

  datatype Event<!T> =
    | Queued(job: Job<T>)
    | Ticked(clock: nat -> int, effect: Job<T> -> Effect<T>)

  function Next<T>(s: State<T>, event: Event<T>): (s': State<T>)
    requires s.Valid()
    ensures s'.Valid()
  {
    match event
    case Queued(job) => Queue(s, job)
    case Ticked(clock, effect) => Tick(s, clock, effect)
  }

  ghost function Run<T>(s: State<T>, events: seq<Event<T>>): (s': State<T>)
    requires s.Valid()
    ensures s'.Valid()
    decreases |events|
  {
    if |events| == 0 then s else Run(Next(s, events[0]), events[1..])
  }

  /** The jobs an event appends to the list. */
  function Appended<T>(s: State<T>, event: Event<T>): seq<Job<T>>
    requires s.Valid()
  {
    match event
    case Queued(job) => [job]
    case Ticked(clock, effect) =>
      match Executed(s, clock)
      case None => []
      case Some(job) => effect(job).queued
  }

  ghost function AllAppended<T>(s: State<T>, events: seq<Event<T>>): seq<Job<T>>
    requires s.Valid()
    decreases |events|
  {
    if |events| == 0 then []
    else Appended(s, events[0]) + AllAppended(Next(s, events[0]), events[1..])
  }

  function RunBy<T>(s: State<T>, event: Event<T>): seq<Job<T>>
    requires s.Valid()
  {
    match event
    case Queued(_) => []
    case Ticked(clock, _) => match Executed(s, clock) case None => [] case Some(job) => [job]
  }

  ghost function AllExecuted<T>(s: State<T>, events: seq<Event<T>>): seq<Job<T>>
    requires s.Valid()
    decreases |events|
  {
    if |events| == 0 then []
    else RunBy(s, events[0]) + AllExecuted(Next(s, events[0]), events[1..])
  }

  ghost function Ticks<T>(events: seq<Event<T>>): nat
    decreases |events|
  {
    if |events| == 0 then 0 else (if events[0].Ticked? then 1 else 0) + Ticks(events[1..])
  }

  /** Where the job at position `p` is after the events; nowhere if one of them executed it. */
  ghost function Follow<T>(s: State<T>, events: seq<Event<T>>, p: nat): Option<nat>
    requires s.Valid() && p < |s.jobs|
    decreases |events|
  {
    if |events| == 0 then Some(p)
    else
      match Moved(s, events[0], p)
      case None => None
      case Some(p') => MovedIsInRange(s, events[0], p); Follow(Next(s, events[0]), events[1..], p')
  }

  ghost function Moved<T>(s: State<T>, event: Event<T>, p: nat): Option<nat>
    requires s.Valid() && p < |s.jobs|
  {
    if event.Queued? || Executed(s, event.clock).None? then Some(p)
    else
      var i := Advance(s, event.clock).cursor.index;
      if i == p then None else if i < p then Some(p - 1) else Some(p)
  }

  /** The jobs after an event: all but the executed one. */
  lemma NextJobs<T>(s: State<T>, event: Event<T>) returns (all: seq<Job<T>>, i: nat)
    requires s.Valid()
    ensures all == s.jobs + Appended(s, event)
    ensures
      if event.Queued? || Executed(s, event.clock).None?
      then RunBy(s, event) == [] && Next(s, event).jobs == all
      else
        && i == Advance(s, event.clock).cursor.index < |s.jobs|
        && RunBy(s, event) == [s.jobs[i]] && Next(s, event).jobs == all[..i] + all[i + 1..]
  {
    all := s.jobs + Appended(s, event);
    i := if event.Ticked? && Executed(s, event.clock).Some? then Advance(s, event.clock).cursor.index else 0;
  }

  lemma MovedIsInRange<T>(s: State<T>, event: Event<T>, p: nat)
    requires s.Valid() && p < |s.jobs|
    ensures
      match Moved(s, event, p)
      case None => RunBy(s, event) == [s.jobs[p]]
      case Some(p') => p' < |Next(s, event).jobs| && Next(s, event).jobs[p'] == s.jobs[p]
  {
    var all, i := NextJobs(s, event);
    assert all[p] == s.jobs[p];
  }

  // ---------------------------------------------------------------------------------------------
  // Nothing is lost, nothing runs twice, nothing runs early.

  lemma MultisetOfConcat<T>(a: seq<T>, b: seq<T>)
    ensures multiset(a + b) == multiset(a) + multiset(b)
  {
  }

  lemma MultisetOfRemoval<T>(s: seq<T>, i: nat)
    requires i < |s|
    ensures multiset([s[i]]) + multiset(s[..i] + s[i + 1..]) == multiset(s)
  {
    assert s == s[..i] + ([s[i]] + s[i + 1..]);
    MultisetOfConcat(s[..i], [s[i]] + s[i + 1..]);
    MultisetOfConcat([s[i]], s[i + 1..]);
    MultisetOfConcat(s[..i], s[i + 1..]);
  }

  lemma Telescope<T>(r: multiset<T>, n: multiset<T>, s: multiset<T>, q: multiset<T>,
                     r': multiset<T>, n': multiset<T>, q': multiset<T>)
    requires r + n == s + q && r' + n' == n + q'
    ensures (r + r') + n' == s + (q + q')
  {
    assert (r + r') + n' == r + (r' + n') == r + (n + q') == (r + n) + q';
  }

  lemma NextConserves<T>(s: State<T>, event: Event<T>)
    requires s.Valid()
    ensures multiset(RunBy(s, event)) + multiset(Next(s, event).jobs) == multiset(s.jobs) + multiset(Appended(s, event))
  {
    var all, i := NextJobs(s, event);
    MultisetOfConcat(s.jobs, Appended(s, event));
    if RunBy(s, event) != [] {
      MultisetOfRemoval(all, i);
    }
  }

  /** Over any run, the jobs queued (before it, from outside, or by tasks) are exactly the jobs executed
      and the jobs still pending: each runs at most once and none disappears. */
  lemma {:induction false} RunConserves<T>(s: State<T>, events: seq<Event<T>>)
    requires s.Valid()
    ensures multiset(AllExecuted(s, events)) + multiset(Run(s, events).jobs)
         == multiset(s.jobs) + multiset(AllAppended(s, events))
    decreases |events|
  {
    if |events| > 0 {
      var s', rest := Next(s, events[0]), events[1..];
      NextConserves(s, events[0]);
      RunConserves(s', rest);
      MultisetOfConcat(RunBy(s, events[0]), AllExecuted(s', rest));
      MultisetOfConcat(Appended(s, events[0]), AllAppended(s', rest));
      Telescope(multiset(RunBy(s, events[0])), multiset(s'.jobs), multiset(s.jobs), multiset(Appended(s, events[0])),
                multiset(AllExecuted(s', rest)), multiset(Run(s', rest).jobs), multiset(AllAppended(s', rest)));
      assert Run(s, events) == Run(s', rest);
      assert AllExecuted(s, events) == RunBy(s, events[0]) + AllExecuted(s', rest);
      assert AllAppended(s, events) == Appended(s, events[0]) + AllAppended(s', rest);
    }
  }

  /** A job is never executed before its time, and only when no earlier job from the cursor on is due. */
  lemma ExecutedIsDue<T>(s: State<T>, clock: nat -> int)
    requires s.Valid() && Executed(s, clock).Some?
    ensures
      var i := Advance(s, clock).cursor.index;
      && s.First() <= i < |s.jobs|
      && Executed(s, clock) == Some(s.jobs[i])
      && clock(i - s.First()) >= s.jobs[i].when
      && forall k | s.First() <= k < i :: clock(k - s.First()) < s.jobs[k].when
  {
  }

  // ---------------------------------------------------------------------------------------------
  // Order and waiting time.

  ghost predicate DueAt<T(!new)>(job: Job<T>, event: Event<T>) {
    event.Ticked? ==> forall n: nat :: event.clock(n) >= job.when
  }

  /** Every clock reading of the run finds the job due. */
  ghost predicate DueThroughout<T(!new)>(job: Job<T>, events: seq<Event<T>>) {
    forall i | 0 <= i < |events| :: DueAt(job, events[i])
  }

  lemma DueLater<T(!new)>(job: Job<T>, events: seq<Event<T>>)
    requires |events| > 0 && DueThroughout(job, events)
    ensures DueAt(job, events[0]) && DueThroughout(job, events[1..])
  {
    forall i | 0 <= i < |events[1..]|
      ensures DueAt(job, events[1..][i])
    {
      assert events[1..][i] == events[i + 1];
    }
  }

  /** The cursor never passes a job that is due, so of two jobs ahead of it the one in front runs first. */
  lemma {:induction false} DueJobsRunInOrder<T(!new)>(s: State<T>, events: seq<Event<T>>, p: nat, q: nat)
    requires s.Valid() && s.First() <= p < q < |s.jobs|
    requires DueThroughout(s.jobs[p], events)
    requires Follow(s, events, p).Some?
    ensures Follow(s, events, q).Some?
    decreases |events|
  {
    if |events| > 0 {
      var event := events[0];
      DueLater(s.jobs[p], events);
      MovedIsInRange(s, event, p);
      MovedIsInRange(s, event, q);
      if event.Ticked? {
        assert event.clock(p - s.First()) >= s.jobs[p].when;
      }
      DueJobsRunInOrder(Next(s, event), events[1..], Moved(s, event, p).value, Moved(s, event, q).value);
    }
  }

  /** A job that is due when it is queued runs before every job queued after it, from outside or by a
      task: if `event` queues a job at `q` while the due job is pending, now at `p2`, then as long as
      the due job is pending the later one is too. */
  lemma {:induction false} DueWhenQueuedRunsFirst<T(!new)>(
    s: State<T>, job: Job<T>, before: seq<Event<T>>, event: Event<T>, after: seq<Event<T>>, p1: nat, p2: nat, q: nat)
    requires s.Valid() && DueThroughout(job, before) && DueAt(job, event) && DueThroughout(job, after)
    requires Follow(Queue(s, job), before, |s.jobs|) == Some(p1)
    requires
      var s1 := Run(Queue(s, job), before);
      && p1 < |s1.jobs| && Moved(s1, event, p1) == Some(p2) && p2 < |Next(s1, event).jobs|
      && |Next(s1, event).jobs| - |Appended(s1, event)| <= q < |Next(s1, event).jobs|
      && Follow(Next(s1, event), after, p2).Some?
    ensures Follow(Next(Run(Queue(s, job), before), event), after, q).Some?
  {
    var s1 := Run(Queue(s, job), before);
    StaysAhead(Queue(s, job), before, |s.jobs|);
    FollowIsFollowIn(Queue(s, job), before, |s.jobs|);
    MovedIsInRange(s1, event, p1);
    if event.Ticked? {
      assert event.clock(p1 - s1.First()) >= job.when;
    }
    DueJobsRunInOrder(Next(s1, event), after, p2, q);
  }

  lemma {:induction false} FollowIsFollowIn<T>(s: State<T>, events: seq<Event<T>>, p: nat)
    requires s.Valid() && p < |s.jobs| && Follow(s, events, p).Some?
    ensures Follow(s, events, p) == Some(FollowIn(s, events, p))
    decreases |events|
  {
    if |events| > 0 {
      MovedIsInRange(s, events[0], p);
      FollowIsFollowIn(Next(s, events[0]), events[1..], Moved(s, events[0], p).value);
    }
  }

  ghost function FollowIn<T>(s: State<T>, events: seq<Event<T>>, p: nat): (p': nat)
    requires s.Valid() && p < |s.jobs| && Follow(s, events, p).Some?
    ensures p' < |Run(s, events).jobs| && Run(s, events).jobs[p'] == s.jobs[p]
    decreases |events|
  {
    if |events| == 0 then p
    else MovedIsInRange(s, events[0], p); FollowIn(Next(s, events[0]), events[1..], Moved(s, events[0], p).value)
  }

  /** The cursor stays at or in front of a job it has not passed, for as long as the job is due. */
  lemma {:induction false} StaysAhead<T(!new)>(s: State<T>, events: seq<Event<T>>, p: nat)
    requires s.Valid() && s.First() <= p < |s.jobs|
    requires DueThroughout(s.jobs[p], events) && Follow(s, events, p).Some?
    ensures Run(s, events).First() <= FollowIn(s, events, p)
    decreases |events|
  {
    if |events| > 0 {
      DueLater(s.jobs[p], events);
      MovedIsInRange(s, events[0], p);
      if events[0].Ticked? {
        assert events[0].clock(p - s.First()) >= s.jobs[p].when;
      }
      StaysAhead(Next(s, events[0]), events[1..], Moved(s, events[0], p).value);
    }
  }

  /** How many ticks a due job at `p` can still wait: up to its own turn if the cursor has not passed it,
      otherwise first to the end of the list and once around. */
  function Rank<T>(s: State<T>, p: nat): nat
    requires s.Valid() && p < |s.jobs|
  {
    if s.First() <= p then p - s.First() + 1 else |s.jobs| - s.First() + 1 + p + 1
  }

  /** Every tick takes a due job one rank down. Only a job behind the cursor is put off by what is queued. */
  lemma NextLowersRank<T(!new)>(s: State<T>, event: Event<T>, p: nat, p': nat)
    requires s.Valid() && p < |s.jobs| && DueAt(s.jobs[p], event)
    requires Moved(s, event, p) == Some(p')
    ensures p' < |Next(s, event).jobs|
    ensures Rank(Next(s, event), p') + (if event.Ticked? then 1 else 0) <= Rank(s, p) + Delay(s, event, p)
  {
    MovedIsInRange(s, event, p);
    if event.Ticked? && s.First() <= p {
      assert event.clock(p - s.First()) >= s.jobs[p].when;
    }
  }

  /** The jobs an event queues in front of the next turn of the job at `p`. */
  function Delay<T>(s: State<T>, event: Event<T>, p: nat): nat
    requires s.Valid()
  {
    if p < s.First() then |Appended(s, event)| else 0
  }

  /** All jobs queued while the job at `p` is pending behind the cursor. */
  ghost function AllDelays<T>(s: State<T>, events: seq<Event<T>>, p: nat): nat
    requires s.Valid() && p < |s.jobs|
    decreases |events|
  {
    if |events| == 0 then 0
    else
      match Moved(s, events[0], p)
      case None => 0
      case Some(p') =>
        MovedIsInRange(s, events[0], p);
        Delay(s, events[0], p) + AllDelays(Next(s, events[0]), events[1..], p')
  }

  /** The waiting bound: a due job runs within its rank plus the number of jobs queued while it was behind
      the cursor. */
  lemma {:induction false} DueJobRunsWithin<T(!new)>(s: State<T>, events: seq<Event<T>>, p: nat)
    requires s.Valid() && p < |s.jobs| && DueThroughout(s.jobs[p], events)
    requires Ticks(events) >= Rank(s, p) + AllDelays(s, events, p)
    ensures Follow(s, events, p).None?
    decreases |events|
  {
    DueLater(s.jobs[p], events);
    MovedIsInRange(s, events[0], p);
    if Moved(s, events[0], p).Some? {
      NextLowersRank(s, events[0], p, Moved(s, events[0], p).value);
      DueJobRunsWithin(Next(s, events[0]), events[1..], Moved(s, events[0], p).value);
    }
  }

  lemma {:induction false} NoDelayAhead<T(!new)>(s: State<T>, events: seq<Event<T>>, p: nat)
    requires s.Valid() && s.First() <= p < |s.jobs| && DueThroughout(s.jobs[p], events)
    ensures AllDelays(s, events, p) == 0
    decreases |events|
  {
    if |events| > 0 {
      DueLater(s.jobs[p], events);
      MovedIsInRange(s, events[0], p);
      if Moved(s, events[0], p).Some? {
        if events[0].Ticked? {
          assert events[0].clock(p - s.First()) >= s.jobs[p].when;
        }
        NoDelayAhead(Next(s, events[0]), events[1..], Moved(s, events[0], p).value);
      }
    }
  }

  /** A due job in front of the cursor runs within one tick for every job up to it, whatever is queued. */
  lemma DueJobAheadRunsWithin<T(!new)>(s: State<T>, events: seq<Event<T>>, p: nat)
    requires s.Valid() && s.First() <= p < |s.jobs| && DueThroughout(s.jobs[p], events)
    requires Ticks(events) >= p - s.First() + 1
    ensures Follow(s, events, p).None?
  {
    NoDelayAhead(s, events, p);
    DueJobRunsWithin(s, events, p);
  }

  lemma {:induction false} DelaysAreAppended<T>(s: State<T>, events: seq<Event<T>>, p: nat)
    requires s.Valid() && p < |s.jobs|
    ensures AllDelays(s, events, p) <= |AllAppended(s, events)|
    decreases |events|
  {
    if |events| > 0 && Moved(s, events[0], p).Some? {
      MovedIsInRange(s, events[0], p);
      DelaysAreAppended(Next(s, events[0]), events[1..], Moved(s, events[0], p).value);
    }
  }

  /** Without further queueing, one more tick than there are pending jobs is enough. */
  lemma DueJobRunsWithinPending<T(!new)>(s: State<T>, events: seq<Event<T>>, p: nat)
    requires s.Valid() && p < |s.jobs| && DueThroughout(s.jobs[p], events)
    requires AllAppended(s, events) == [] && Ticks(events) >= |s.jobs| + 1
    ensures Follow(s, events, p).None?
  {
    DelaysAreAppended(s, events, p);
    DueJobRunsWithin(s, events, p);
  }

  // ---------------------------------------------------------------------------------------------
  // When a job behind the cursor gets its turn.

  ghost predicate NeverAtEnd<T>(s: State<T>, events: seq<Event<T>>)
    requires s.Valid()
    decreases |events|
  {
    s.cursor.At? && (|events| > 0 ==> NeverAtEnd(Next(s, events[0]), events[1..]))
  }

  /** As long as the cursor does not reach the end, a job behind it waits behind it, due or not. */
  lemma {:induction false} WaitsBehind<T>(s: State<T>, events: seq<Event<T>>, p: nat)
    requires s.Valid() && p < s.First() && p < |s.jobs| && NeverAtEnd(s, events)
    ensures Follow(s, events, p) == Some(p)
    decreases |events|
  {
    if |events| > 0 {
      MovedIsInRange(s, events[0], p);
      assert Next(s, events[0]).cursor.At?;
      assert Moved(s, events[0], p) == Some(p) && p < Next(s, events[0]).First();
      WaitsBehind(Next(s, events[0]), events[1..], p);
    }
  }

  lemma {:induction false} SomeStateIsAtEnd<T>(s: State<T>, events: seq<Event<T>>) returns (k: nat)
    requires s.Valid() && !NeverAtEnd(s, events)
    ensures k <= |events| && Run(s, events[..k]).cursor.AtEnd?
    decreases |events|
  {
    if s.cursor.AtEnd? {
      k := 0;
    } else {
      var j := SomeStateIsAtEnd(Next(s, events[0]), events[1..]);
      k := j + 1;
      assert events[..k][1..] == events[1..][..j];
    }
  }

  lemma {:induction false} FollowAppend<T>(s: State<T>, a: seq<Event<T>>, b: seq<Event<T>>, p: nat)
    requires s.Valid() && p < |s.jobs|
    ensures
      Follow(s, a + b, p) ==
      if Follow(s, a, p).None? then None else Follow(Run(s, a), b, FollowIn(s, a, p))
    decreases |a|
  {
    if |a| == 0 {
      assert a + b == b;
    } else {
      assert (a + b)[1..] == a[1..] + b;
      MovedIsInRange(s, a[0], p);
      if Moved(s, a[0], p).Some? {
        FollowAppend(Next(s, a[0]), a[1..], b, Moved(s, a[0], p).value);
      }
    }
  }

  lemma {:induction false} TicksAppend<T>(a: seq<Event<T>>, b: seq<Event<T>>)
    ensures Ticks(a + b) == Ticks(a) + Ticks(b) && Ticks(a) <= |a|
    decreases |a|
  {
    if |a| == 0 {
      assert a + b == b;
    } else {
      assert (a + b)[1..] == a[1..] + b;
      TicksAppend(a[1..], b);
    }
  }

  ghost function Prefix<T>(run: nat -> Event<T>, n: nat): (events: seq<Event<T>>)
    ensures |events| == n && forall i: nat | i < n :: events[i] == run(i)
  {
    seq(n, i requires 0 <= i => run(i))
  }

  ghost predicate TicksAtLeast<T(!new)>(run: nat -> Event<T>, m: nat) {
    exists n: nat :: Ticks(Prefix(run, n)) >= m
  }

  /** The run goes on ticking. */
  ghost predicate TicksForever<T(!new)>(run: nat -> Event<T>) {
    forall m: nat :: TicksAtLeast(run, m)
  }

  /** Whatever is queued, a due job that the cursor has passed is executed in a run that goes on ticking
      exactly if the cursor reaches the end of the list. */
  lemma BehindRunsIffEndReached<T(!new)>(s: State<T>, run: nat -> Event<T>, p: nat)
    requires s.Valid() && p < s.First() && p < |s.jobs| && TicksForever(run)
    requires forall i: nat :: DueAt(s.jobs[p], run(i))
    ensures
      (exists n: nat :: Follow(s, Prefix(run, n), p).None?)
      <==> (exists k: nat :: Run(s, Prefix(run, k)).cursor.AtEnd?)
  {
    if n: nat :| Follow(s, Prefix(run, n), p).None? {
      if NeverAtEnd(s, Prefix(run, n)) {
        WaitsBehind(s, Prefix(run, n), p);
      }
      var k := SomeStateIsAtEnd(s, Prefix(run, n));
      assert Prefix(run, n)[..k] == Prefix(run, k);
    }
    if k: nat :| Run(s, Prefix(run, k)).cursor.AtEnd? {
      var n := TurnAfterEnd(s, run, p, k);
    }
  }

  lemma TurnAfterEnd<T(!new)>(s: State<T>, run: nat -> Event<T>, p: nat, k: nat) returns (n: nat)
    requires s.Valid() && p < |s.jobs| && TicksForever(run)
    requires forall i: nat :: DueAt(s.jobs[p], run(i))
    requires Run(s, Prefix(run, k)).cursor.AtEnd?
    ensures Follow(s, Prefix(run, n), p).None?
  {
    var before := Prefix(run, k);
    n := k;
    if Follow(s, before, p).Some? {
      var q := FollowIn(s, before, p);
      assert TicksAtLeast(run, k + q + 1);
      n :| Ticks(Prefix(run, n)) >= k + q + 1;
      TicksAppend(Prefix(run, n), []);
      var after := Prefix(run, n)[k..];
      assert Prefix(run, n) == before + after;
      TicksAppend(before, after);
      FollowAppend(s, before, after, p);
      DueJobAheadRunsWithin(Run(s, before), after, q);
    }
  }

  // ---------------------------------------------------------------------------------------------
  // The cursor need not reach the end.

  function Requeue(at: int): Event<int> {
    Ticked((n: nat) => at, (job: Job<int>) => Effect([job], false))
  }

  function Repeat(n: nat): (events: seq<Event<int>>)
    ensures |events| == n && forall i | 0 <= i < n :: events[i] == Requeue(10)
  {
    seq(n, i => Requeue(10))
  }

  const LATE: Job<int> := Job(10, 0)
  const BUSY: Job<int> := Job(0, 1)

  /** Queue a job for time 10 and a job that requeues itself, and tick once at time 0: the cursor is now
      behind the first job, and no number of ticks at time 10 will execute it. */
  lemma {:induction false} SelfRequeueingStarves(n: nat)
    ensures
      var s := Run(State([], AtEnd), [Queued(LATE), Queued(BUSY), Requeue(0)]);
      && |s.jobs| == 2 && s.jobs[0] == LATE
      && DueThroughout(LATE, Repeat(n)) && Ticks(Repeat(n)) == n
      && Follow(s, Repeat(n), 0) == Some(0)
  {
    var events := [Queued(LATE), Queued(BUSY), Requeue(0)];
    var s0: State<int> := State([], AtEnd);
    var s1 := Next(s0, events[0]);
    var s2 := Next(s1, events[1]);
    assert s2.jobs == [LATE, BUSY];
    var s3 := Next(s2, events[2]);
    assert FirstDue(s2.jobs, 0, events[2].clock, 0) == FirstDue(s2.jobs, 1, events[2].clock, 1);
    assert s3.jobs == [LATE, BUSY] && s3.cursor == At(1);
    assert events[1..] == [Queued(BUSY), Requeue(0)];
    assert events[1..][1..] == [Requeue(0)];
    assert Run(s3, []) == s3;
    assert Run(s2, [Requeue(0)]) == s3;
    assert Run(s1, events[1..]) == s3;
    assert Run(s0, events) == s3;
    StarvedFor(n, s3);
  }

  lemma {:induction false} StarvedFor(n: nat, s: State<int>)
    requires s == State([LATE, BUSY], At(1))
    ensures DueThroughout(LATE, Repeat(n)) && Ticks(Repeat(n)) == n
    ensures Follow(s, Repeat(n), 0) == Some(0)
  {
    if n > 0 {
      assert FirstDue(s.jobs, 1, Requeue(10).clock, 0) == 1;
      assert Next(s, Requeue(10)).jobs == s.jobs;
      assert Repeat(n)[1..] == Repeat(n - 1);
      StarvedFor(n - 1, s);
    }
  }

  // ---------------------------------------------------------------------------------------------
  // Immediate jobs only: a queue.

  /** With every job always due, the scheduler is a first-in-first-out queue of one job a tick. */
  lemma ImmediateJobsAreFifo<T(!new)>(s: State<T>, clock: nat -> int, effect: Job<T> -> Effect<T>)
    requires s.First() == 0 && s.jobs != []
    requires clock(0) >= s.jobs[0].when
    ensures s.Valid()
    ensures Executed(s, clock) == Some(s.jobs[0])
    ensures Tick(s, clock, effect).jobs == s.jobs[1..] + effect(s.jobs[0]).queued
    ensures Tick(s, clock, effect).First() == 0
  {
    assert s.jobs == [s.jobs[0]] + s.jobs[1..];
  }
}
