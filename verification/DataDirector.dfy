/** The loading part of the data director class, proved against LoadModel. */
module DataDirector {
  import opened Wrappers
  import opened LoadModel
  import opened Scheduler
  import S = SchedulerModel
  import Model = LoadModel

  class DataDirector {
    var contexts: map<User, Context>
    const scheduler: Scheduler<Load>

    ghost function Now(): Director
      reads this, scheduler
    {
      Director(contexts, scheduler.Now())
    }

    constructor ()
      ensures Now() == Director(map[], S.State([], S.AtEnd)) && fresh(scheduler)
    {
      contexts := map[];
      scheduler := new Scheduler<Load>();
    }

    method Touch(user: User) returns (context: Context)
      modifies this
      ensures contexts == old(contexts)[user := ContextOf(old(Now()), user)]
      ensures context == contexts[user]
    {
      if user !in contexts {
        contexts := contexts[user := NEW_CONTEXT];
      }
      context := contexts[user];
    }

    method RequestLoadUserData(user: User, now: int)
      modifies this, scheduler
      ensures Now() == Request(old(Now()), UserLoad(user), now)
    {
      var context := Touch(user);
      if context.isBeingLoaded || context.isUserDataLoaded {
        return;
      }
      contexts := contexts[user := context.(isBeingLoaded := true, timeout := now + LOAD_TIMEOUT)];
      scheduler.Queue(UserLoad(user), now);
    }

    method RequestLoadCharacterData(user: User, characterUid: nat, now: int)
      modifies this, scheduler
      ensures Now() == Request(old(Now()), CharacterLoad(user, characterUid), now)
    {
      var context := Touch(user);
      if context.isBeingLoaded || context.isCharacterDataLoaded {
        return;
      }
      contexts := contexts[user := context.(isBeingLoaded := true, timeout := now + LOAD_TIMEOUT)];
      scheduler.Queue(CharacterLoad(user, characterUid), now);
    }

    /** The load job: its body finds everything or not, and its deferred check ends or requeues it. */
    method RunLoad(load: Load, complete: bool, end: int)
      modifies this, scheduler
      ensures contexts == old(contexts)[load.user := Ran(ContextOf(old(Now()), load.user), load, complete, end)]
      ensures scheduler.Now() ==
        if Requeues(ContextOf(old(Now()), load.user), load, complete, end)
        then S.Queue(old(scheduler.Now()), S.Job(end, load))
        else old(scheduler.Now())
    {
      var context := Touch(load.user);
      if complete {
        context :=
          if load.UserLoad? then context.(isUserDataLoaded := true) else context.(isCharacterDataLoaded := true);
      }
      var isLoaded := if load.UserLoad? then context.isUserDataLoaded else context.isCharacterDataLoaded;
      if isLoaded || end > context.timeout {
        context := context.(isBeingLoaded := false);
      } else {
        scheduler.Queue(load, end);
      }
      contexts := contexts[load.user := context];
    }

    /** The scheduler part of a tick. */
    method Tick(clock: nat -> int, complete: bool, end: int)
      requires scheduler.Valid()
      modifies this, scheduler
      ensures Now() == Model.Tick(old(Now()), clock, complete, end)
    {
      ghost var was := Now();
      var job := scheduler.Advance(clock);
      if job.Some? {
        RunLoad(job.value.task, complete, end);
        assert scheduler.jobs == S.Advance(was.scheduler, clock).jobs + RunEffect(was, complete, end)(job.value).queued;
        scheduler.Erase();
      }
    }
  }
}
