/**
 The load state machine of src/libserver/data/DataDirector.cpp as functions on values, and what it
 guarantees in every run. Whether the body of a load job finds all its data is an outcome of the tick that
 executes it; time is the latest clock reading.
 */
module LoadModel {
  import opened Wrappers
  import opened SchedulerModel
  import S = SchedulerModel

  type User = string

  // Ten seconds, in milliseconds.
  const LOAD_TIMEOUT: int := 10_000

  datatype Context = Context(isBeingLoaded: bool, isUserDataLoaded: bool, isCharacterDataLoaded: bool, timeout: int)

  datatype Load = UserLoad(user: User) | CharacterLoad(user: User, characterUid: nat)

  datatype Director = Director(contexts: map<User, Context>, scheduler: S.State<Load>)

  const NEW_CONTEXT := Context(false, false, false, 0)

  function ContextOf(d: Director, user: User): Context {
    if user in d.contexts then d.contexts[user] else NEW_CONTEXT
  }

  predicate IsLoaded(c: Context, load: Load) {
    if load.UserLoad? then c.isUserDataLoaded else c.isCharacterDataLoaded
  }

  function WithLoaded(c: Context, load: Load): Context {
    if load.UserLoad? then c.(isUserDataLoaded := true) else c.(isCharacterDataLoaded := true)
  }

  function Request(d: Director, load: Load, now: int): Director {
    var c := ContextOf(d, load.user);
    if c.isBeingLoaded || IsLoaded(c, load) then d.(contexts := d.contexts[load.user := c])
    else Director(
      d.contexts[load.user := c.(isBeingLoaded := true, timeout := now + LOAD_TIMEOUT)],
      S.Queue(d.scheduler, Job(now, load)))
  }

  /** The context once the load job has run: `complete` if its body found everything, `end` the time of the
      deferred check. */
  function Ran(c: Context, load: Load, complete: bool, end: int): Context {
    var c' := if complete then WithLoaded(c, load) else c;
    if IsLoaded(c', load) || end > c.timeout then c'.(isBeingLoaded := false) else c'
  }

  predicate Requeues(c: Context, load: Load, complete: bool, end: int) {
    !complete && !IsLoaded(c, load) && end <= c.timeout
  }

  function RunEffect(d: Director, complete: bool, end: int): Job<Load> -> Effect<Load> {
    (job: Job<Load>) =>
      Effect(if Requeues(ContextOf(d, job.task.user), job.task, complete, end) then [Job(end, job.task)] else [], false)
  }

  function Tick(d: Director, clock: nat -> int, complete: bool, end: int): Director
    requires d.scheduler.Valid()
  {
    var scheduler := S.Tick(d.scheduler, clock, RunEffect(d, complete, end));
    match S.Executed(d.scheduler, clock)
    case None => d.(scheduler := scheduler)
    case Some(job) =>
      Director(
        d.contexts[job.task.user := Ran(ContextOf(d, job.task.user), job.task, complete, end)],
        scheduler)
  }

  // ---------------------------------------------------------------------------------------------
  // Runs. Every clock reading is at or after the ones before it.

  datatype Event =
    | Requested(load: Load, now: int)
    | Ticked(clock: nat -> int, complete: bool, end: int)

  ghost predicate Timely(event: Event, now: int) {
    match event
    case Requested(_, at) => now <= at
    case Ticked(clock, _, end) => now <= end && forall n: nat :: now <= clock(n) <= end
  }

  function TimeOf(event: Event): int {
    match event
    case Requested(_, at) => at
    case Ticked(_, _, end) => end
  }

  ghost function Next(d: Director, event: Event): Director
    requires d.scheduler.Valid()
  {
    match event
    case Requested(load, now) => Request(d, load, now)
    case Ticked(clock, complete, end) => Tick(d, clock, complete, end)
  }

  ghost predicate LegalRun(d: Director, now: int, events: seq<Event>)
    decreases |events|
  {
    |events| == 0
    || (&& d.scheduler.Valid() && Timely(events[0], now)
        && LegalRun(Next(d, events[0]), TimeOf(events[0]), events[1..]))
  }

  ghost function Run(d: Director, now: int, events: seq<Event>): Director
    requires LegalRun(d, now, events)
    decreases |events|
  {
    if |events| == 0 then d else Run(Next(d, events[0]), TimeOf(events[0]), events[1..])
  }

  // ---------------------------------------------------------------------------------------------
  // The invariant.

  function CountOf(jobs: seq<Job<Load>>, user: User): nat {
    if jobs == [] then 0 else (if jobs[0].task.user == user then 1 else 0) + CountOf(jobs[1..], user)
  }

  ghost predicate Inv(d: Director, now: int) {
    && d.scheduler.Valid() && d.scheduler.First() == 0
    && (forall user :: CountOf(d.scheduler.jobs, user) == if ContextOf(d, user).isBeingLoaded then 1 else 0)
    && (forall job | job in d.scheduler.jobs ::
          && job.when <= now
          && !IsLoaded(ContextOf(d, job.task.user), job.task))
  }

  lemma {:induction false} CountOfAppended(a: seq<Job<Load>>, b: seq<Job<Load>>, user: User)
    ensures CountOf(a + b, user) == CountOf(a, user) + CountOf(b, user)
  {
    if a == [] {
      assert a + b == b;
    } else {
      assert (a + b)[1..] == a[1..] + b;
      CountOfAppended(a[1..], b, user);
    }
  }

  lemma CountOfOne(job: Job<Load>, user: User)
    ensures CountOf([job], user) == if job.task.user == user then 1 else 0
  {
  }

  lemma {:induction false} PendingHasJob(jobs: seq<Job<Load>>, user: User)
    ensures CountOf(jobs, user) > 0 <==> exists i | 0 <= i < |jobs| :: jobs[i].task.user == user
  {
    if jobs != [] {
      PendingHasJob(jobs[1..], user);
      forall i | 0 < i < |jobs|
        ensures jobs[i] == jobs[1..][i - 1]
      {
      }
      if jobs[0].task.user != user && CountOf(jobs[1..], user) > 0 {
        var i :| 0 <= i < |jobs[1..]| && jobs[1..][i].task.user == user;
        assert jobs[i + 1].task.user == user;
      }
    }
  }

  lemma RequestKeepsInv(d: Director, load: Load, now: int, at: int)
    requires Inv(d, now) && now <= at
    ensures Inv(Request(d, load, at), at)
  {
    var d' := Request(d, load, at);
    forall user
      ensures CountOf(d'.scheduler.jobs, user) == if ContextOf(d', user).isBeingLoaded then 1 else 0
    {
      CountOfAppended(d.scheduler.jobs, [Job(at, load)], user);
    }
    forall job | job in d'.scheduler.jobs
      ensures job.when <= at && !IsLoaded(ContextOf(d', job.task.user), job.task)
    {
      if job in d.scheduler.jobs {
        NotBeingLoadedHasNoJob(d, now, job);
      }
    }
  }

  lemma NotBeingLoadedHasNoJob(d: Director, now: int, job: Job<Load>)
    requires Inv(d, now) && job in d.scheduler.jobs
    ensures ContextOf(d, job.task.user).isBeingLoaded
  {
    PendingHasJob(d.scheduler.jobs, job.task.user);
    var i :| 0 <= i < |d.scheduler.jobs| && d.scheduler.jobs[i] == job;
    assert d.scheduler.jobs[i].task.user == job.task.user;
  }

  /** All load jobs are immediate, so a tick executes the first one. */
  lemma TickExecutesFirst(d: Director, now: int, event: Event)
    requires Inv(d, now) && Timely(event, now) && event.Ticked? && d.scheduler.jobs != []
    ensures
      var job := d.scheduler.jobs[0];
      var d' := Next(d, event);
      && S.Executed(d.scheduler, event.clock) == Some(job)
      && d'.scheduler.jobs == d.scheduler.jobs[1..] + RunEffect(d, event.complete, event.end)(job).queued
      && d'.scheduler.Valid() && d'.scheduler.First() == 0
      && d'.contexts == d.contexts[job.task.user :=
           Ran(ContextOf(d, job.task.user), job.task, event.complete, event.end)]
  {
    ImmediateJobsAreFifo(d.scheduler, event.clock, RunEffect(d, event.complete, event.end));
  }

  lemma TickKeepsCounts(d: Director, now: int, event: Event, user: User)
    requires Inv(d, now) && Timely(event, now) && event.Ticked? && d.scheduler.jobs != []
    ensures
      var d' := Next(d, event);
      CountOf(d'.scheduler.jobs, user) == if ContextOf(d', user).isBeingLoaded then 1 else 0
  {
    var d' := Next(d, event);
    var jobs, job := d.scheduler.jobs, d.scheduler.jobs[0];
    var queued := RunEffect(d, event.complete, event.end)(job).queued;
    TickExecutesFirst(d, now, event);
    CountOfAppended(jobs[1..], queued, user);
    NotBeingLoadedHasNoJob(d, now, job);
    CountOfOne(Job(event.end, job.task), user);
    assert CountOf(jobs, user) == (if job.task.user == user then 1 else 0) + CountOf(jobs[1..], user);
    assert job in jobs && !IsLoaded(ContextOf(d, job.task.user), job.task);
    if user == job.task.user {
      assert ContextOf(d', user) == Ran(ContextOf(d, user), job.task, event.complete, event.end);
    } else {
      assert ContextOf(d', user) == ContextOf(d, user);
    }
  }

  lemma TickKeepsPending(d: Director, now: int, event: Event, j: Job<Load>)
    requires Inv(d, now) && Timely(event, now) && event.Ticked? && d.scheduler.jobs != []
    requires j in Next(d, event).scheduler.jobs
    ensures j.when <= event.end && !IsLoaded(ContextOf(Next(d, event), j.task.user), j.task)
  {
    var jobs, job := d.scheduler.jobs, d.scheduler.jobs[0];
    TickExecutesFirst(d, now, event);
    if j in jobs[1..] {
      PendingHasJob(jobs[1..], j.task.user);
      assert j.task.user != job.task.user by {
        var i :| 0 <= i < |jobs[1..]| && jobs[1..][i] == j;
        assert CountOf(jobs, job.task.user) <= 1;
        PendingHasJob(jobs[1..], job.task.user);
      }
    }
  }

  lemma TickKeepsInv(d: Director, now: int, event: Event)
    requires Inv(d, now) && Timely(event, now) && event.Ticked?
    ensures Inv(Next(d, event), event.end)
  {
    var d' := Next(d, event);
    if d.scheduler.jobs != [] {
      TickExecutesFirst(d, now, event);
      forall user
        ensures CountOf(d'.scheduler.jobs, user) == if ContextOf(d', user).isBeingLoaded then 1 else 0
      {
        TickKeepsCounts(d, now, event, user);
      }
      forall j | j in d'.scheduler.jobs
        ensures j.when <= event.end && !IsLoaded(ContextOf(d', j.task.user), j.task)
      {
        TickKeepsPending(d, now, event, j);
      }
    }
  }

  lemma NextKeepsInv(d: Director, now: int, event: Event)
    requires Inv(d, now) && Timely(event, now)
    ensures Inv(Next(d, event), TimeOf(event))
  {
    if event.Requested? {
      RequestKeepsInv(d, event.load, now, event.now);
    } else {
      TickKeepsInv(d, now, event);
    }
  }

  /** In every run a user is being loaded exactly when one load job of the user is pending; there are never
      two, and a pending load is never already complete. */
  lemma {:induction false} LoadsAreExclusive(d: Director, now: int, events: seq<Event>, user: User)
    requires Inv(d, now) && LegalRun(d, now, events)
    ensures
      var d' := Run(d, now, events);
      && CountOf(d'.scheduler.jobs, user) == (if ContextOf(d', user).isBeingLoaded then 1 else 0)
      && forall job | job in d'.scheduler.jobs :: !IsLoaded(ContextOf(d', job.task.user), job.task)
    decreases |events|
  {
    if |events| > 0 {
      NextKeepsInv(d, now, events[0]);
      LoadsAreExclusive(Next(d, events[0]), TimeOf(events[0]), events[1..], user);
    }
  }

  lemma StartIsInv(now: int)
    ensures Inv(Director(map[], S.State([], AtEnd)), now)
  {
  }

  // ---------------------------------------------------------------------------------------------
  // Every load ends.

  ghost function TickCount(events: seq<Event>): nat
    decreases |events|
  {
    if |events| == 0 then 0 else (if events[0].Ticked? then 1 else 0) + TickCount(events[1..])
  }

  /** Some state of the run, the first included, does not have the user being loaded. */
  ghost predicate Ends(d: Director, now: int, events: seq<Event>, user: User)
    requires LegalRun(d, now, events)
    decreases |events|
  {
    !ContextOf(d, user).isBeingLoaded
    || (|events| > 0 && Ends(Next(d, events[0]), TimeOf(events[0]), events[1..], user))
  }

  /** A load whose deadline has passed ends once its job has come up: within one tick for every job up to
      its own, however many loads of other users are requested meanwhile. */
  lemma {:induction false} LoadEnds(d: Director, now: int, events: seq<Event>, p: nat)
    requires Inv(d, now) && LegalRun(d, now, events) && p < |d.scheduler.jobs|
    requires ContextOf(d, d.scheduler.jobs[p].task.user).timeout < now
    requires TickCount(events) > p
    ensures Ends(d, now, events, d.scheduler.jobs[p].task.user)
    decreases |events|
  {
    var user, event := d.scheduler.jobs[p].task.user, events[0];
    var d' := Next(d, event);
    NextKeepsInv(d, now, event);
    NotBeingLoadedHasNoJob(d, now, d.scheduler.jobs[p]);
    if event.Requested? {
      assert d'.scheduler.jobs[p] == d.scheduler.jobs[p];
      assert ContextOf(d', user) == ContextOf(d, user);
      LoadEnds(d', TimeOf(event), events[1..], p);
    } else {
      TickExecutesFirst(d, now, event);
      if p > 0 {
        assert d'.scheduler.jobs[p - 1] == d.scheduler.jobs[p];
        assert d.scheduler.jobs[0].task.user != user by {
          PendingHasJob(d.scheduler.jobs[1..], user);
          assert d.scheduler.jobs[1..][p - 1].task.user == user;
        }
        LoadEnds(d', TimeOf(event), events[1..], p - 1);
      }
    }
  }

  /** A job requeues itself exactly while its load is incomplete and the deadline has not passed. */
  lemma RequeuesWhileUnfinished(d: Director, now: int, event: Event)
    requires Inv(d, now) && Timely(event, now) && event.Ticked? && d.scheduler.jobs != []
    ensures
      var load := d.scheduler.jobs[0].task;
      var d' := Next(d, event);
      && (ContextOf(d', load.user).isBeingLoaded <==> !event.complete && event.end <= ContextOf(d, load.user).timeout)
      && (IsLoaded(ContextOf(d', load.user), load) <==> event.complete)
      && (ContextOf(d', load.user).isBeingLoaded ==>
            && |d'.scheduler.jobs| == |d.scheduler.jobs|
            && d'.scheduler.jobs[|d.scheduler.jobs| - 1] == Job(event.end, load))
  {
    TickExecutesFirst(d, now, event);
    NotBeingLoadedHasNoJob(d, now, d.scheduler.jobs[0]);
  }

  // ---------------------------------------------------------------------------------------------
  // Requested loads.

  predicate HasData(d: Director, load: Load) {
    match load
    case UserLoad(user) => user in d.contexts && d.contexts[user].isUserDataLoaded
    case CharacterLoad(user, _) => user in d.contexts && d.contexts[user].isCharacterDataLoaded
  }

  predicate IsBeingLoaded(d: Director, user: User) {
    user in d.contexts && d.contexts[user].isBeingLoaded
  }

  /** After a request the user is being loaded exactly if it was before or the data asked for was not loaded. In the
      new case one job is appended, due now, with ten seconds to succeed; otherwise nothing is queued or restarted. */
  lemma RequestedIs(d: Director, load: Load, now: int)
    requires d.scheduler.Valid()
    ensures
      var d' := Next(d, Requested(load, now));
      && (IsBeingLoaded(d', load.user) <==> IsBeingLoaded(d, load.user) || !HasData(d, load))
      && (if IsBeingLoaded(d, load.user) || HasData(d, load)
          then d'.scheduler == d.scheduler && ContextOf(d', load.user) == ContextOf(d, load.user)
          else
            && d'.scheduler.jobs == d.scheduler.jobs + [Job(now, load)]
            && d'.scheduler.cursor == d.scheduler.cursor
            && d'.contexts[load.user].timeout == now + 10_000)
      && (HasData(d', UserLoad(load.user)) <==> HasData(d, UserLoad(load.user)))
      && (forall uid :: HasData(d', CharacterLoad(load.user, uid)) <==> HasData(d, CharacterLoad(load.user, uid)))
      && forall user | user != load.user :: ContextOf(d', user) == ContextOf(d, user)
  {
  }

  /** Loaded data stays loaded. */
  lemma NextKeepsData(d: Director, now: int, event: Event, load: Load)
    requires Inv(d, now) && Timely(event, now) && HasData(d, load)
    ensures HasData(Next(d, event), load)
  {
    if event.Ticked? && d.scheduler.jobs != [] {
      TickExecutesFirst(d, now, event);
    }
  }

  lemma {:induction false} RunKeepsData(d: Director, now: int, events: seq<Event>, load: Load)
    requires Inv(d, now) && LegalRun(d, now, events) && HasData(d, load)
    ensures HasData(Run(d, now, events), load)
    decreases |events|
  {
    if |events| > 0 {
      NextKeepsData(d, now, events[0], load);
      NextKeepsInv(d, now, events[0]);
      RunKeepsData(Next(d, events[0]), TimeOf(events[0]), events[1..], load);
    }
  }

  /** The tick that executes a job: `complete` marks the data as loaded and ends the load; otherwise the job goes to
      the back of the queue, up to the deadline. */
  lemma TurnIs(d: Director, now: int, event: Event)
    requires Inv(d, now) && Timely(event, now) && event.Ticked? && d.scheduler.jobs != []
    ensures
      var load, d' := d.scheduler.jobs[0].task, Next(d, event);
      && load.user in d.contexts
      && (event.complete ==> HasData(d', load) && !IsBeingLoaded(d', load.user))
      && (!event.complete && event.end <= d.contexts[load.user].timeout ==>
            && |d'.scheduler.jobs| == |d.scheduler.jobs|
            && d'.scheduler.jobs[|d'.scheduler.jobs| - 1].task == load
            && ContextOf(d', load.user) == ContextOf(d, load.user))
  {
    TickExecutesFirst(d, now, event);
    NotBeingLoadedHasNoJob(d, now, d.scheduler.jobs[0]);
    RequeuesWhileUnfinished(d, now, event);
  }

  /** Any event but its own turn brings a pending job one place forward or leaves it where it is. */
  lemma JobMovesUp(d: Director, now: int, event: Event, p: nat)
    requires Inv(d, now) && Timely(event, now) && p < |d.scheduler.jobs| && (event.Ticked? ==> p > 0)
    ensures
      var user, d' := d.scheduler.jobs[p].task.user, Next(d, event);
      var q := if event.Ticked? then p - 1 else p;
      && q < |d'.scheduler.jobs| && d'.scheduler.jobs[q] == d.scheduler.jobs[p]
      && ContextOf(d', user) == ContextOf(d, user)
  {
    var user := d.scheduler.jobs[p].task.user;
    NotBeingLoadedHasNoJob(d, now, d.scheduler.jobs[p]);
    if event.Ticked? {
      TickExecutesFirst(d, now, event);
      assert d.scheduler.jobs[0].task.user != user by {
        PendingHasJob(d.scheduler.jobs[1..], user);
        assert d.scheduler.jobs[1..][p - 1].task.user == user;
      }
    }
  }

  /** A pending load whose body finds everything when its turn comes ends with its data loaded: its turn is the tick
      after one for every job in front of it, whatever is requested meanwhile. */
  lemma {:induction false} LoadSucceeds(d: Director, now: int, events: seq<Event>, p: nat)
    requires Inv(d, now) && LegalRun(d, now, events) && p < |d.scheduler.jobs|
    requires TickCount(events) == p + 1 && events[|events| - 1].Ticked? && events[|events| - 1].complete
    ensures
      var load, d' := d.scheduler.jobs[p].task, Run(d, now, events);
      HasData(d', load) && !IsBeingLoaded(d', load.user)
    decreases |events|
  {
    var event, rest := events[0], events[1..];
    NextKeepsInv(d, now, event);
    if rest == [] {
      assert p == 0;
      TurnIs(d, now, event);
    } else {
      assert rest[|rest| - 1] == events[|events| - 1];
      LastTickCounts(rest);
      JobMovesUp(d, now, event, p);
      LoadSucceeds(Next(d, event), TimeOf(event), rest, if event.Ticked? then p - 1 else p);
    }
  }

  lemma {:induction false} LastTickCounts(events: seq<Event>)
    requires events != [] && events[|events| - 1].Ticked?
    ensures TickCount(events) >= 1
    decreases |events|
  {
    if !events[0].Ticked? {
      LastTickCounts(events[1..]);
    }
  }

  /** Some turn of the load finds everything, and it was not given up before: every turn before that was up to its
      deadline. The load is the p-th pending one. */
  ghost predicate FindsAll(d: Director, now: int, events: seq<Event>, p: nat)
    requires Inv(d, now) && LegalRun(d, now, events) && p < |d.scheduler.jobs|
    decreases |events|
  {
    && |events| > 0
    && var event, d' := events[0], Next(d, events[0]);
       NextKeepsInv(d, now, event);
       if event.Ticked? && p == 0 then
         TurnIs(d, now, event);
         event.complete
         || (event.end <= d.contexts[d.scheduler.jobs[0].task.user].timeout
             && FindsAll(d', TimeOf(event), events[1..], |d'.scheduler.jobs| - 1))
       else
         JobMovesUp(d, now, event, p);
         FindsAll(d', TimeOf(event), events[1..], if event.Ticked? then p - 1 else p)
  }

  /** Nobody asks for the same data of the user again. */
  ghost predicate NotAskedAgain(events: seq<Event>, load: Load) {
    forall i | 0 <= i < |events| && events[i].Requested? && events[i].load.user == load.user ::
      events[i].load.UserLoad? != load.UserLoad?
  }

  /** No load of this data is pending. */
  ghost predicate NothingPending(d: Director, load: Load) {
    forall job | job in d.scheduler.jobs && job.task.user == load.user :: job.task.UserLoad? != load.UserLoad?
  }

  lemma NextKeepsNothingPending(d: Director, now: int, event: Event, load: Load)
    requires Inv(d, now) && Timely(event, now) && NothingPending(d, load) && !HasData(d, load)
    requires NotAskedAgain([event], load)
    ensures NothingPending(Next(d, event), load) && !HasData(Next(d, event), load)
  {
    assert [event][0] == event;
    if event.Ticked? && d.scheduler.jobs != [] {
      TickExecutesFirst(d, now, event);
      assert d.scheduler.jobs[0] in d.scheduler.jobs;
    }
  }

  lemma {:induction false} NothingPendingStays(d: Director, now: int, events: seq<Event>, load: Load)
    requires Inv(d, now) && LegalRun(d, now, events) && NothingPending(d, load) && !HasData(d, load)
    requires NotAskedAgain(events, load)
    ensures !HasData(Run(d, now, events), load)
    decreases |events|
  {
    if |events| > 0 {
      AskedLater(events, load);
      NextKeepsNothingPending(d, now, events[0], load);
      NextKeepsInv(d, now, events[0]);
      NothingPendingStays(Next(d, events[0]), TimeOf(events[0]), events[1..], load);
    }
  }

  lemma AskedLater(events: seq<Event>, load: Load)
    requires |events| > 0 && NotAskedAgain(events, load)
    ensures NotAskedAgain([events[0]], load) && NotAskedAgain(events[1..], load)
  {
    assert forall i | 0 <= i < |events[1..]| :: events[1..][i] == events[i + 1];
  }

  /** A turn past the deadline that does not find everything gives the load up. */
  lemma GivenUp(d: Director, now: int, event: Event)
    requires Inv(d, now) && Timely(event, now) && event.Ticked? && d.scheduler.jobs != []
    requires !event.complete && event.end > ContextOf(d, d.scheduler.jobs[0].task.user).timeout
    ensures
      var load, d' := d.scheduler.jobs[0].task, Next(d, event);
      NothingPending(d', load) && !HasData(d', load) && !IsBeingLoaded(d', load.user)
  {
    var load, d' := d.scheduler.jobs[0].task, Next(d, event);
    TickExecutesFirst(d, now, event);
    RequeuesWhileUnfinished(d, now, event);
    NextKeepsInv(d, now, event);
    forall job | job in d'.scheduler.jobs
      ensures job.task.user != load.user
    {
      if job.task.user == load.user {
        NotBeingLoadedHasNoJob(d', event.end, job);
      }
    }
  }

  /** As long as nobody asks for the same data again, a pending load ends with its data loaded exactly if some turn
      of it finds everything, and every turn before that was up to its deadline. */
  lemma {:induction false} LoadSucceedsIff(d: Director, now: int, events: seq<Event>, p: nat)
    requires Inv(d, now) && LegalRun(d, now, events) && p < |d.scheduler.jobs|
    requires NotAskedAgain(events, d.scheduler.jobs[p].task)
    ensures HasData(Run(d, now, events), d.scheduler.jobs[p].task) <==> FindsAll(d, now, events, p)
    decreases |events|
  {
    var load := d.scheduler.jobs[p].task;
    if |events| == 0 {
      assert d.scheduler.jobs[p] in d.scheduler.jobs;
    } else {
      var event, rest := events[0], events[1..];
      var d' := Next(d, event);
      AskedLater(events, load);
      NextKeepsInv(d, now, event);
      if event.Ticked? && p == 0 {
        TurnIs(d, now, event);
        if event.complete {
          RunKeepsData(d', TimeOf(event), rest, load);
        } else if event.end <= d.contexts[load.user].timeout {
          LoadSucceedsIff(d', TimeOf(event), rest, |d'.scheduler.jobs| - 1);
        } else {
          GivenUp(d, now, event);
          NothingPendingStays(d', TimeOf(event), rest, load);
        }
      } else {
        JobMovesUp(d, now, event, p);
        LoadSucceedsIff(d', TimeOf(event), rest, if event.Ticked? then p - 1 else p);
      }
    }
  }

  /** So data that is asked for while it is neither there nor being loaded is there after one tick for every job that
      is pending and one more, if that one finds everything. */
  lemma RequestedLoadSucceeds(d: Director, now: int, load: Load, at: int, events: seq<Event>)
    requires Inv(d, now) && now <= at && !IsBeingLoaded(d, load.user) && !HasData(d, load)
    requires LegalRun(Next(d, Requested(load, at)), at, events)
    requires TickCount(events) == |d.scheduler.jobs| + 1
    requires events[|events| - 1].Ticked? && events[|events| - 1].complete
    ensures
      var d' := Run(Next(d, Requested(load, at)), at, events);
      HasData(d', load) && !IsBeingLoaded(d', load.user)
  {
    RequestedIs(d, load, at);
    NextKeepsInv(d, now, Requested(load, at));
    LoadSucceeds(Next(d, Requested(load, at)), at, events, |d.scheduler.jobs|);
  }
}
