/** The scheduler class of src/libserver/util/Scheduler.cpp, proved against SchedulerModel. */
module Scheduler {
  import opened Wrappers
  import opened SchedulerModel
  import Model = SchedulerModel

  class Scheduler<T> {
    var jobs: seq<Job<T>>
    var cursor: Cursor

    ghost predicate Valid()
      reads this
    {
      Now().Valid()
    }

    ghost function Now(): State<T>
      reads this
    {
      State(jobs, cursor)
    }

    constructor ()
      ensures Now() == State([], AtEnd)
    {
      jobs, cursor := [], AtEnd;
    }

    method Queue(task: T, when: int)
      modifies this
      ensures Now() == Model.Queue(old(Now()), Job(when, task))
    {
      jobs := jobs + [Job(when, task)];
    }

    /** The first half of a tick: looks for a job to execute. `found` is it. */
    method Advance(clock: nat -> int) returns (found: Option<Job<T>>)
      requires Valid()
      modifies this
      ensures Now() == Model.Advance(old(Now()), clock)
      ensures found == Executed(old(Now()), clock)
    {
      if jobs == [] {
        return None;
      }
      var i := if cursor.AtEnd? then 0 else cursor.index;
      ghost var first, due := i, FirstDue(jobs, i, clock, 0);
      AdvanceIs(Now(), clock, due);
      var n := 0;
      while clock(n) < jobs[i].when
        invariant first <= i <= due && i < |jobs| && n == i - first
        invariant jobs == old(jobs) && cursor == old(cursor)
        decreases |jobs| - i
      {
        i, n := i + 1, n + 1;
        if i == |jobs| {
          cursor := AtEnd;
          return None;
        }
      }
      cursor := At(i);
      found := Some(jobs[i]);
    }

    /** The second half of a tick: erases the executed job, whether or not its task has thrown. */
    method Erase()
      requires Valid() && cursor.At?
      modifies this
      ensures Now() == Model.Erase(old(Now()))
    {
      jobs := jobs[..cursor.index] + jobs[cursor.index + 1..];
      if cursor.index == |jobs| {
        cursor := AtEnd;
      }
    }

    /** One tick. The task's own effect is `effect`; `threw` is the exception passed on. */
    method Tick(clock: nat -> int, effect: Job<T> -> Effect<T>) returns (executed: Option<Job<T>>, threw: bool)
      requires Valid()
      modifies this
      ensures Valid() && Now() == Model.Tick(old(Now()), clock, effect)
      ensures executed == Executed(old(Now()), clock)
      ensures threw <==> executed.Some? && effect(executed.value).throws
    {
      executed := Advance(clock);
      threw := false;
      if executed.Some? {
        var queued := effect(executed.value).queued;
        ghost var found := Now();
        for i := 0 to |queued|
          invariant jobs == found.jobs + queued[..i] && cursor == found.cursor
        {
          Queue(queued[i].task, queued[i].when);
        }
        assert queued[..|queued|] == queued;
        threw := effect(executed.value).throws;
        Erase();
      }
    }
  }
}
