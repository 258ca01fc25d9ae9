# Alicia server: a verified model

A Dafny model of the stateful parts of the Alicia server, a dedicated server for a horse racing game, and
proofs of what these parts guarantee. Each part is given twice: as functions on plain values, about which
the properties are proved, and, where the program changes things in place, as a class or a method over an
array whose methods are proved to compute exactly these functions.

| files | what they model |
|---|---|
| `StorageModel`, `DataStorage`, `DataStorageRuns`, `RequestRuns` | the write-back cache of the data records with its retrieve, store and delete queues: in every run it is a plain key-value map; and what becomes of single requests |
| `QueueHandoff` | the hand-off of one such queue between producers and the ticking thread, step by step |
| `SchedulerModel`, `Scheduler` | the job list with its resuming cursor: conservation, order and waiting time of jobs |
| `LoadModel`, `DataDirector` | the load state machine of a user on top of that scheduler |
| `DataRepairModel`, `DataRepair` | the cleanser that drops references to records which cannot be retrieved, on top of that cache |
| `FoalStats`, `LineageModel`, `LineageStorage`, `Lineage` | breeding: stats and grade of a foal, lineage scores and their repair, on top of that cache |
| `ClassProgress` | class levels of a horse |
| `RaceResults`, `MagicGauge` | the end of a race and the regeneration of the magic gauge |
| `ContactsModel`, `Friendship`, `Messenger`, `Mailbox` | friend lists and mailbox paging |
| `ThrottleModel`, `Server` | throttling of connections per address |
| `LoginModel`, `LoginDecisions`, `LoginRuns`, `LoginCases`, `Lobby` | login admission: every decision, what holds in every run, and runs that lead to what does not |
| `AliciaTime` | packed durations |
| `Words`, `Arithmetic`, `Wrappers` | 32-bit arithmetic and other common ground |

Clocks, random draws, and the answers of the data source, the authentication backend and other components
are inputs: the properties hold for all of them, or say for which. Listeners of the cache act on a source map that is part of
the modelled state. Unsigned 32-bit arithmetic wraps around wherever the program can reach that. Threads are
modelled as interleaved steps.

## What does not hold

Some natural properties fail. The model says when, in most cases exactly:

- A store that fails is not repeated by itself: after a tick the source holds a cached value exactly under the
  condition of `DataStorageRuns.StoredIff`, and a value it does not hold stays out of it until somebody patches,
  saves or deletes it (`DataStorageRuns.StaleStays`) or the cache terminates (`DataStorageRuns.TerminateLeaves`).
- A requested deletion or store is tried by the next tick only; if that fails it is forgotten
  (`RequestRuns.DeletionIsCarriedOutIff`, `RequestRuns.StoreIsCarriedOutIff`).
- A reference that fails 2^32 times is not seen as failing until it fails again (`RequestRuns.FailingIff`).
- Deleting or saving a key that is not cached hides it instead, and so does a first look without a retrieval
  (`DataStorageRuns.DeletingUncachedKeyHidesIt`, `DataStorageRuns.SavingUncachedKeyHidesIt`,
  `DataStorageRuns.FirstPeekHidesKey`).
- A due job behind the cursor is executed exactly if the cursor reaches the end of the list
  (`SchedulerModel.BehindRunsIffEndReached`), which a job that requeues itself can prevent
  (`SchedulerModel.SelfRequeueingStarves`).
- Repairs bring a lineage to its true score exactly if the ancestors that could raise it get read
  (`LineageModel.RepairsConvergeIff`); a read that fails is not repeated by the repairs
  (`LineageModel.FailedReadIsFinal`).
- The class of a horse is right for every progress exactly if the cumulative cost of class 30 fits 32 bits
  (`ClassProgress.ClimbIsExactIff`); gains can be split exactly under the condition of
  `ClassProgress.SplitGainIff`.
- Outside of team races the fastest racer need not be ranked first (`RaceResults.FirstIsFastestIff`).
- Lineage scores never fall as horses become resident exactly for coats other than 0 (`LineageModel.ScoreGrowsIff`).
- A foal keeps its target grade exactly if its base stats are not all zero or the grade is 1
  (`FoalStats.FoalKeepsTargetGradeIff`).
- Friendship can become one-sided in exactly two ways (`Friendship.StepStaysMutualIff`).
- Paging through a mailbox ends exactly if the shown mails are distinct but for the last (`Mailbox.WalkEndsIff`).
- A client that disconnects while it waits to be admitted leaves a user instance that blocks its name as long as
  no connection logs in twice (`LoginRuns.AdmissionOrphansIff`, `LoginRuns.OrphanStays`, `LoginCases.OrphanArises`).
- A second login on one connection can leave an authenticated client whose name has no user instance
  (`LoginCases.SecondLoginBreaksSessions`), exactly under the condition of `LoginRuns.LoginKeepsSessionsIff`. The
  login itself never puts two clients under one name; a later admission does, exactly if somebody else is logged in
  under the name of the admitted client (`LoginRuns.NextKeepsNamesIff`), and a second login leads there
  (`LoginCases.SecondLoginSharesName`). What such a login does to the queues, the verdicts, the checks and the
  tokens is stated exactly too (`LoginRuns.LoginKeepsQueuesIff`, `LoginRuns.QueueLoginKeepsAuthIff`,
  `LoginRuns.QueueLoginKeepsAdmissionIff`, `LoginRuns.LoginKeepsTokensIff`).
- The own token need not decide: with one other login under the name a client can be admitted without a positive
  verdict on its own token exactly if the two tokens differ (`LoginCases.AdmittedUnconfirmedIff`), even after a
  negative one (`LoginCases.AdmittedOnTokenOfAnother`).
- A friendship does not take a request, only a reply that is accepted (`Friendship.FriendsWithoutRequest`,
  `Friendship.NewFriendTakesReply`).
- The throttle never forgets an address: the branch that would is never taken (`ThrottleModel.NeverForgotten`).
- The fields of a packed date overlap exactly as `AliciaTime.UnpackPacked` says: from the year 0 on they do not
  (`AliciaTime.FieldsAreGivenBack`), and in the 4096 years before that month, day, hour and minute
  are lost (`AliciaTime.EarlierFieldsAreLost`).
- The comment on the packed hours says 15; the code clamps them to 31, and the model follows the code.

## Model

| member | source | states |
|---|---|---|
| `DataStorage.Storage.GetRetrieveFailureCount` | include/libserver/data/DataStorage.hpp:101-108 | the failure count of the entry, 0 without one, changing nothing |
| `DataStorage.Storage.HasRetrieveFailedFor` | include/libserver/data/DataStorage.hpp:112-127 | true exactly if the entry has failed and its first failure is at least the duration ago |
| `DataStorage.Storage.RetryRetrieve` | include/libserver/data/DataStorage.hpp:131-134 | the key is queued for retrieval and nothing else changes |
| `DataStorage.Storage.Create` | include/libserver/data/DataStorage.hpp:150-171 | a new key becomes available with its value and is queued for a store; an existing key is refused and changes nothing |
| `DataStorage.Storage.GetOrCreate` | include/libserver/data/DataStorage.hpp:173-197 | as `Create`, but an existing entry is left alone |
| `DataStorage.Storage.Get` | include/libserver/data/DataStorage.hpp:199-219 | an unknown key gets an unavailable entry and, if asked for, a retrieval; a record is handed out exactly if the entry was available |
| `DataStorage.Storage.GetAll` | include/libserver/data/DataStorage.hpp:221-241 | every key is looked up, and records are handed out exactly if all were available |
| `DataStorage.Storage.Patch` | include/libserver/data/Record.hpp:128-137 | a patch replaces the value and queues a store |
| `DataStorage.Storage.Delete` | include/libserver/data/DataStorage.hpp:243-246 | the key is queued for deletion and nothing else changes |
| `DataStorage.Storage.Save` | include/libserver/data/DataStorage.hpp:258-261 | the key is queued for a store and nothing else changes |
| `DataStorage.Storage.RetrieveEntry` | include/libserver/data/DataStorage.hpp:300-316 | a readable key becomes available with the value of the source and without failures; an unreadable one counts a failure and keeps the time of the first |
| `DataStorage.Storage.StoreEntry` | include/libserver/data/DataStorage.hpp:329-334 | an available value goes to the source |
| `DataStorage.Storage.DeleteEntry` | include/libserver/data/DataStorage.hpp:347-353 | an available key the source deletes becomes unavailable |
| `DataStorage.Storage.ProcessRetrieveQueue` | include/libserver/data/DataStorage.hpp:292-319 | if the flag is set, all queued keys are retrieved, in whatever order, and the queue is emptied |
| `DataStorage.Storage.ProcessStoreQueue` | include/libserver/data/DataStorage.hpp:321-337 | if the flag is set, all queued keys are stored, in whatever order, and the queue is emptied |
| `DataStorage.Storage.ProcessDeleteQueue` | include/libserver/data/DataStorage.hpp:339-356 | if the flag is set, all queued keys are deleted, in whatever order, and the queue is emptied |
| `DataStorage.Storage.Tick` | include/libserver/data/DataStorage.hpp:263-268 | retrievals, then stores, then deletions |
| `DataStorage.Storage.Terminate` | include/libserver/data/DataStorage.hpp:63-84 | a store of every available entry is requested, one tick follows and the entries are dropped |
| `DataStorageRuns.StepKeepsInv` | include/libserver/data/DataStorage.hpp:271-356 | every request and tick keeps: a non-empty queue is flagged, only unavailable keys are queued for retrieval, a failure count means unavailable, deleted keys stay dormant, available values are stored, queued or failed to store |
| `DataStorageRuns.RunKeepsInv` | include/libserver/data/DataStorage.hpp:271-356 | the same over any run |
| `DataStorageRuns.StepRefinesMap` | include/libserver/data/DataStorage.hpp:150-356 | every request and tick is one operation on a plain key-value map: put, drop or nothing |
| `DataStorageRuns.RunRefinesMap` | include/libserver/data/DataStorage.hpp:150-356 | over any run and with any failing reads, stores and deletions, the cache stands for the plain map its operations make |
| `DataStorageRuns.ReadsSeeTheMap` | include/libserver/data/DataStorage.hpp:199-219 | in any run an available value is the one the plain map holds |
| `DataStorageRuns.CacheCoherence` | include/libserver/data/DataStorage.hpp:321-337 | as long as no store of the key fails, in any run its available value is queued for a store or equal to the one in the source |
| `DataStorageRuns.StoredIff` | include/libserver/data/DataStorage.hpp:321-337 | after a tick the source holds the value of a key that is still available exactly if it held it before, or the key was queued and its store succeeded |
| `DataStorageRuns.StaleStays` | include/libserver/data/DataStorage.hpp:321-337 | an available value that is not in the source and not queued stays so in every run in which nobody patches, saves or deletes it |
| `DataStorageRuns.CoherenceNeedsStores` | include/libserver/data/DataStorage.hpp:333-336 | one failed store is enough to lose the coherence |
| `DataStorageRuns.FailedStoreIsForgotten` | include/libserver/data/DataStorage.hpp:333-336 | a value whose store fails stays out of the source in every later run in which nobody patches, saves or deletes it |
| `DataStorageRuns.TerminateLeaves` | include/libserver/data/DataStorage.hpp:63-84 | termination leaves in the source exactly the last value of every available entry that is stored and not deleted, and touches no other key |
| `DataStorageRuns.TerminateSavesTheMap` | include/libserver/data/DataStorage.hpp:63-84 | with a source that accepts every store, termination leaves exactly the plain map without the deletions carried out |
| `DataStorageRuns.DormantForever` | include/libserver/data/DataStorage.hpp:199-219 | an unavailable entry without failures and without a queued retrieval stays so in every run |
| `DataStorageRuns.DeletionIsFinal` | include/libserver/data/DataStorage.hpp:339-356 | a key whose deletion was carried out is never available and never in the source again |
| `DataStorageRuns.DeletingUncachedKeyHidesIt` | include/libserver/data/DataStorage.hpp:344-354 | deleting a key that is not cached does not delete it but makes it unreadable for good |
| `DataStorageRuns.SavingUncachedKeyHidesIt` | include/libserver/data/DataStorage.hpp:326-334 | neither does saving one store anything, and it makes it unreadable for good too |
| `RequestRuns.FailuresAreCounted` | include/libserver/data/DataStorage.hpp:292-319 | in every run from a fresh cache the failure count of a key is the number of its failed reads since it was last loaded, and the time kept is that of the first of them, up to the wrap-around of the count |
| `RequestRuns.DamagedSinceFirstFailure` | src/libserver/data/DataRepair.cpp:44-60 | so, however often it is retried, a reference is damaged exactly from the grace period after the first of its failed reads since it was last loaded |
| `RequestRuns.FailingIff` | src/libserver/data/DataRepair.cpp:44-60 | a reference is seen as failing exactly if the number of those failed reads is not a multiple of 2^32 |
| `RequestRuns.DeletionIsCarriedOutIff` | include/libserver/data/DataStorage.hpp:243-356 | a requested deletion of an available key is carried out by the next tick exactly if the listener does not fail then, whatever is requested in between; otherwise it is forgotten |
| `RequestRuns.StoreIsCarriedOutIff` | include/libserver/data/DataStorage.hpp:150-337 | a store that a creation, a patch or a save requests is carried out by the next tick exactly if the listener does not fail then or the source holds the value already, unless the key is deleted or patched meanwhile |
| `DataStorageRuns.FirstGetLoads` | include/libserver/data/DataStorage.hpp:199-219 | the first request for a readable key makes it available after one tick with the value of the source |
| `DataStorageRuns.GetRequestsIff` | include/libserver/data/DataStorage.hpp:199-219 | a look at a key queues a retrieval exactly if the key is unknown and the caller wants one |
| `DataStorageRuns.FirstPeekHidesKey` | include/libserver/data/DataStorage.hpp:199-219 | a first look without one makes the key unreadable for good |
| `DataStorageRuns.RetrievalNeverClobbers` | include/libserver/data/DataStorage.hpp:292-319 | in any run no retrieval is queued for an available key, so none overwrites an unsaved patch |
| `DataStorageRuns.RetryKeepsMapIff` | include/libserver/data/DataStorage.hpp:131-134 | exactly when a tick with a retry comes to the same plain map as without it: why retries are guarded |
| `DataStorageRuns.TickDropsFromView` | include/libserver/data/DataStorage.hpp:263-268 | a tick drops exactly the keys whose deletion is requested, possible and carried out |
| `StorageModel.RetrieveOneMore` | include/libserver/data/DataStorage.hpp:298-317 | retrieving one key more after a set of keys is retrieving the larger set: the order does not matter |
| `StorageModel.StoreOneMore` | include/libserver/data/DataStorage.hpp:327-335 | the same for stores |
| `StorageModel.DeleteOneMore` | include/libserver/data/DataStorage.hpp:345-354 | the same for deletions |
| `QueueHandoff.NextKeepsInv` | include/libserver/data/DataStorage.hpp:271-356 | every single step of producers and consumer keeps: a waiting request has its flag set, or its producer is about to, or the consumer is still to clear the queue |
| `QueueHandoff.NoLostWakeUp` | include/libserver/data/DataStorage.hpp:271-297 | in every interleaving a waiting request keeps the hand-off awake |
| `QueueHandoff.ServedByNextPass` | include/libserver/data/DataStorage.hpp:292-319 | a flagged request is handled before the consumer ends one more pass |
| `QueueHandoff.StaysServed` | include/libserver/data/DataStorage.hpp:292-319 | a handled request does not wait again |
| `QueueHandoff.NoDeadlock` | include/libserver/data/DataStorage.hpp:271-356 | the holder of the queue lock can always move, every thread can while it is free, and a thread that cannot move waits for it |
| `QueueHandoff.HolderAdvances` | include/libserver/data/DataStorage.hpp:271-356 | every step of the holder brings it closer to releasing the lock, no other step does anything to that |
| `QueueHandoff.LockIsReleased` | include/libserver/data/DataStorage.hpp:271-356 | the holder releases the lock within a bounded number of its own steps, whatever the others do |
| `QueueHandoff.DrainsAreRequested` | include/libserver/data/DataStorage.hpp:271-356 | in every interleaving the consumer drains the queue at most once for every time its flag is set |
| `Scheduler.Scheduler.constructor` | src/libserver/util/Scheduler.cpp:25-28 | no jobs, and the cursor is at the end |
| `Scheduler.Scheduler.Queue` | src/libserver/util/Scheduler.cpp:71-79 | the job is appended and the cursor stays |
| `Scheduler.Scheduler.Advance` | src/libserver/util/Scheduler.cpp:33-50 | the cursor cycles to the front if it is at the end and moves to the first due job from there, or to the end |
| `Scheduler.Scheduler.Erase` | src/libserver/util/Scheduler.cpp:55-63 | the job at the cursor is erased and the cursor is at the one after it, or at the end |
| `Scheduler.Scheduler.Tick` | src/libserver/util/Scheduler.cpp:30-69 | at most one job is executed, whatever it queues is appended, and it is erased even if it throws |
| `SchedulerModel.RunConserves` | src/libserver/util/Scheduler.cpp:30-79 | over any run the jobs executed and pending are exactly the jobs queued, each as often as it was queued |
| `SchedulerModel.ExecutedIsDue` | src/libserver/util/Scheduler.cpp:45-69 | the executed job is due, and no job between the cursor and it was |
| `SchedulerModel.DueJobsRunInOrder` | src/libserver/util/Scheduler.cpp:30-79 | of two jobs in front of the cursor, a due one is executed before any later one |
| `SchedulerModel.DueWhenQueuedRunsFirst` | src/libserver/util/Scheduler.cpp:30-79 | a job due when queued runs before every job queued after it |
| `SchedulerModel.StaysAhead` | src/libserver/util/Scheduler.cpp:45-69 | the cursor never passes a due job |
| `SchedulerModel.NextLowersRank` | src/libserver/util/Scheduler.cpp:30-79 | every tick brings a due job one rank closer; only a job behind the cursor is put off by what is queued |
| `SchedulerModel.DueJobRunsWithin` | src/libserver/util/Scheduler.cpp:30-79 | a due job runs within its rank plus the number of jobs queued while it is behind the cursor |
| `SchedulerModel.DueJobAheadRunsWithin` | src/libserver/util/Scheduler.cpp:45-69 | a due job in front of the cursor runs within one tick for every job up to it, whatever is queued |
| `SchedulerModel.WaitsBehind` | src/libserver/util/Scheduler.cpp:38-69 | a job behind the cursor waits as long as the cursor does not reach the end |
| `SchedulerModel.BehindRunsIffEndReached` | src/libserver/util/Scheduler.cpp:30-79 | in a run that goes on ticking, a due job behind the cursor is executed exactly if the cursor reaches the end, whatever is queued |
| `SchedulerModel.DueJobRunsWithinPending` | src/libserver/util/Scheduler.cpp:30-79 | without further queueing a due job runs within one tick more than there are pending jobs |
| `SchedulerModel.SelfRequeueingStarves` | src/libserver/util/Scheduler.cpp:38-69 | with a job that requeues itself, a due job behind the cursor waits for any number of ticks |
| `SchedulerModel.ImmediateJobsAreFifo` | src/libserver/util/Scheduler.cpp:30-79 | jobs due at once are executed in the order they were queued, one a tick |
| `DataDirector.DataDirector.RequestLoadUserData` | src/libserver/data/DataDirector.cpp:822-842 | a user that is neither being loaded nor loaded is marked, gets a deadline and one load job; otherwise nothing changes |
| `DataDirector.DataDirector.RequestLoadCharacterData` | src/libserver/data/DataDirector.cpp:844-865 | the same for the character data |
| `DataDirector.DataDirector.RunLoad` | src/libserver/data/DataDirector.cpp:1357-1420 | the load job marks the data as loaded if it found everything; its deferred check ends the load or requeues it |
| `DataDirector.DataDirector.Tick` | src/libserver/data/DataDirector.cpp:811-814 | one scheduler tick with the load jobs as tasks |
| `LoadModel.NextKeepsInv` | src/libserver/data/DataDirector.cpp:822-865 | every request and tick keeps: being loaded means exactly one pending load job, and no pending load is complete |
| `LoadModel.LoadsAreExclusive` | src/libserver/data/DataDirector.cpp:822-865 | in every run a user is being loaded exactly if one load job of the user is pending; there are never two |
| `LoadModel.RequeuesWhileUnfinished` | src/libserver/data/DataDirector.cpp:1363-1381 | a job requeues itself exactly while the load is unfinished and before its deadline |
| `LoadModel.LoadEnds` | src/libserver/data/DataDirector.cpp:1446-1470 | a load past its deadline ends once its job has come up, however many other loads are requested |
| `LoadModel.RequestedIs` | src/libserver/data/DataDirector.cpp:822-865 | after a request the user is being loaded exactly if it was before or the data asked for was not loaded; in the new case exactly one job is appended, due now, with a deadline ten seconds later, otherwise nothing changes |
| `LoadModel.RequestedLoadSucceeds` | src/libserver/data/DataDirector.cpp:822-865 | requested data is loaded after one tick for every pending job and one more, if that one finds everything |
| `LoadModel.LoadSucceeds` | src/libserver/data/DataDirector.cpp:1357-1420 | the same for any pending load, by its place in the queue, whatever is requested meanwhile |
| `LoadModel.LoadSucceedsIff` | src/libserver/data/DataDirector.cpp:1357-1470 | over any run in which the same data is not asked for again, a pending load ends with its data loaded exactly if some turn of its job finds everything and every turn before was up to the deadline |
| `LoadModel.TickExecutesFirst` | src/libserver/data/DataDirector.cpp:1357-1420 | a tick executes the oldest load job |
| `LoadModel.StartIsInv` | include/libserver/data/DataDirector.hpp:161-177 | a fresh director satisfies all of that |
| `DataRepair.IsDamaged` | src/libserver/data/DataRepair.cpp:44-60 | damaged means failing for the whole grace period; a reference that fails for less is queued for another retrieval, and nothing else changes |
| `DataRepair.AreAnyDamaged` | src/libserver/data/DataRepair.cpp:65-77 | whether any reference is damaged, with a retry queued for each that only fails so far |
| `DataRepair.DropDamagedReferences` | src/libserver/data/DataRepair.cpp:84-105 | exactly the undamaged references are kept, in order |
| `DataRepair.CharacterRecord.SurveyReferences` | src/libserver/data/DataRepair.cpp:134-165 | every reference but the mount is visited |
| `DataRepair.CharacterRecord.FindIntactHorse` | src/libserver/data/DataRepair.cpp:217-225 | the first intact horse |
| `DataRepair.CharacterRecord.DropFromAllLists` | src/libserver/data/DataRepair.cpp:250-259 | all collections of references lose exactly their damaged references |
| `DataRepair.CharacterRecord.ClearAllSingles` | src/libserver/data/DataRepair.cpp:112-128 | exactly the damaged single references are cleared |
| `DataRepair.CharacterRecord.Survey` | src/libserver/data/DataRepair.cpp:188-226 | whether anything or the mount is damaged, and the replacement for the mount |
| `DataRepair.CharacterRecord.Repair` | src/libserver/data/DataRepair.cpp:246-284 | the patched character |
| `DataRepair.CharacterRecord.CleanseCharacterReferences` | src/libserver/data/DataRepair.cpp:174-287 | the whole cleanse: the character, the cache and whether the character was patched |
| `DataRepair.BuildMount` | src/libserver/data/DataRepair.cpp:231-244 | a new horse is created and built if the source allows |
| `DataRepair.CleanseUserReferences` | src/libserver/data/DataRepair.cpp:289-326 | the infractions of a user lose exactly the damaged ones, and the user is patched only if there are any |
| `DataRepairModel.KeptInOrder` | src/libserver/data/DataRepair.cpp:85-105 | what is kept is a subsequence of what was there |
| `DataRepairModel.KeptExactly` | src/libserver/data/DataRepair.cpp:85-105 | an undamaged reference is kept as often as it was there, a damaged one is not kept |
| `DataRepairModel.CleansedReferences` | src/libserver/data/DataRepair.cpp:174-287 | a character without damaged references is not patched; otherwise every collection, the horses included, keeps its order and exactly its undamaged references as often as before, but for the new mount among the horses, and exactly the damaged single references are cleared |
| `DataRepairModel.EveryReferenceIsSeen` | src/libserver/data/DataRepair.cpp:134-165 | no reference is forgotten: the survey finds damage exactly if anything the character refers to, in any field or as its mount, is damaged |
| `DataRepairModel.CleansedMount` | src/libserver/data/DataRepair.cpp:215-284 | the mount changes only if it was damaged; the new one is intact, comes from the horses or was built, and is no longer one of the horses |
| `DataRepairModel.FirstUndamagedIsMount` | src/libserver/data/DataRepair.cpp:215-284 | a damaged mount gives way to the first horse of the character that is not damaged, and no horse is created then |
| `DataRepairModel.BuiltHorseIsMount` | src/libserver/data/DataRepair.cpp:230-281 | without such a horse one is created and built if the data source can, is queued for a store and becomes the mount |
| `DataRepairModel.HorseIsCreatedIff` | src/libserver/data/DataRepair.cpp:210-244 | a horse is created exactly if the mount is damaged, no such horse is listed and the data source has a new one; a mount that is not damaged stays |
| `DataRepairModel.SecondCleanseFindsNothingIff` | src/libserver/data/DataRepair.cpp:174-287 | a cleanse at the same time in the world a cleanse left reports nothing, exactly unless the mount is damaged and had no replacement |
| `DataRepairModel.CleanseRetries` | src/libserver/data/DataRepair.cpp:53-57 | a cleanse queues exactly the retrievals of references that fail but are not damaged yet, and deletes and overwrites no record |
| `AliciaTime.UnpackPacked` | src/libserver/util/Util.cpp:44-57 | for every year the word fits 32 bits, and unpacking it gives the fields of the year as a 32-bit word with the other parts, clamped to their widths, or-ed into theirs |
| `AliciaTime.FieldsAreGivenBack` | src/libserver/util/Util.cpp:44-57 | from the year 0 on every field is given back, clamped to its width |
| `AliciaTime.EarlierFieldsAreLost` | src/libserver/util/Util.cpp:44-57 | in the 4096 years before that the other fields read as their largest values, whatever the date |
| `AliciaTime.DurationToAliciaTime` | src/libserver/util/Util.cpp:75-117 | the duration is split into years, months, days, hours and minutes and packed; less than a minute is lost exactly from 0 to below 4096 years |
| `AliciaTime.LosslessIff` | src/libserver/util/Util.cpp:75-117 | packing a split duration loses less than a minute exactly if it is not negative and shorter than 4096 years |
| `AliciaTime.ClockDurationsAreLossless` | src/libserver/util/Util.cpp:75-117 | a non-negative duration that fits the 64-bit nanosecond clock always is |
| `FoalStats.BaseStat` | src/server/ranch/Genetics.cpp:496-515 | a base stat is at most 100 and at most 3 away from the range of the parents; see `FoalStats.BaseStatIsMean` |
| `FoalStats.BaseStatIsMean` | src/server/ranch/Genetics.cpp:496-515 | a base stat is the mean of the parents, cut off, plus the draw, and at most 100; exchanging the parents changes nothing |
| `FoalStats.ParentsAreInterchangeable` | src/server/ranch/Genetics.cpp:483-559 | exchanging the parents gives the same foal |
| `FoalStats.FoalStatsAre` | src/server/ranch/Genetics.cpp:520-556 | stat by stat: each base stat is scaled by the drawn total over their sum and cut off, the first of the largest gets the remainder, and each is capped at 100 |
| `FoalStats.NothingScaled` | src/server/ranch/Genetics.cpp:520-556 | base stats that have the drawn total or are all zero stay |
| `FoalStats.ScalingRemainder` | src/server/ranch/Genetics.cpp:528-540 | scaling loses at least nothing and less than one per stat, so at most 4 for the five stats, or one per stat if floating-point products slip |
| `FoalStats.FittedSum` | src/server/ranch/Genetics.cpp:539-545 | with the remainder absorbed the stats sum up to the drawn total |
| `FoalStats.FoalStatsSum` | src/server/ranch/Genetics.cpp:528-549 | the final stats sum up to the drawn total exactly if nothing had to be scaled, or the base stats are not all zero and the cap changes none |
| `FoalStats.FoalStatsHitTotal` | src/server/ranch/Genetics.cpp:528-549 | for every total below 100 the cap changes nothing and the stats sum up to the total |
| `FoalStats.ScaleInPlace` | src/server/ranch/Genetics.cpp:531-537 | every stat of the array is scaled and cut off, and the sum of the results is returned |
| `FoalStats.MaxElement` | src/server/ranch/Genetics.cpp:543 | the first of the largest stats |
| `FoalStats.CapInPlace` | src/server/ranch/Genetics.cpp:547-548 | every stat of the array is capped at 100 |
| `FoalStats.FitToTotal` | src/server/ranch/Genetics.cpp:528-549 | the array holds the final stats |
| `FoalStats.CalculateFoalStats` | src/server/ranch/Genetics.cpp:483-559 | for a target grade up to 10 and base stats that are not all zero, the five stats sum up to the total drawn from the bucket of the grade; each is at most 100 |
| `FoalStats.GetGradeForStatSum` | src/libserver/registry/HorseRegistry.cpp:739-749 | the highest grade whose minimum the sum reaches, at least 1 |
| `FoalStats.GradeIsUnique` | src/libserver/registry/HorseRegistry.cpp:739-749 | there is only one such grade, so the order of the table does not matter |
| `FoalStats.GradeOfSum` | resources/config/game/horses/progression.yaml:184-243 | with thresholds 10(g - 1) the grade is the tenth of the sum plus one, clamped |
| `FoalStats.FoalKeepsTargetGrade` | src/server/ranch/Genetics.cpp:212-228 | the grade read back from the stats of a foal is its target grade |
| `FoalStats.FoalKeepsTargetGradeIff` | src/server/ranch/Genetics.cpp:212-228 | it is exactly if the base stats are not all zero or the target grade is 1 |
| `FoalStats.ZeroBaseFallsToGradeOne` | src/server/ranch/Genetics.cpp:529 | with all base stats zero nothing is scaled and the grade is 1 |
| `FoalStats.CalculateFoalGrade` | src/server/ranch/Genetics.cpp:449-481 | for any rounding of the column sums, the grade is the lower grade of the parents moved by the column the roll falls into, or by -3, clamped to 1 and the limit |
| `Lineage.HorseSystem.GetHorse` | include/libserver/data/DataStorage.hpp:199-219 | whether the horse can be read; one the cache was never asked for is requested |
| `Lineage.HorseSystem.ReadPart` | src/server/ranch/Genetics.cpp:261-281 | the coat of a readable horse, 0 of any other |
| `Lineage.HorseSystem.BuildAncestry` | src/server/ranch/Genetics.cpp:283-309 | the parents of the readable parents |
| `Lineage.HorseSystem.CalculateLineage` | src/server/ranch/Genetics.cpp:737-758 | the score, which the final cap never changes, with the tree looked at |
| `Lineage.HorseSystem.RequestAncestry` | src/server/ranch/Genetics.cpp:114-135 | exactly the parents and the known grandparents the cache was never asked for are requested |
| `Lineage.HorseSystem.RecalculateLineage` | src/server/ranch/Genetics.cpp:137-155 | the score of a readable horse, 0 of any other, with the ancestors looked for |
| `Lineage.HorseSystem.Tick` | include/libserver/data/DataStorage.hpp:292-319 | what was requested becomes resident, but for the reads that fail, and nothing is requested any more |
| `LineageStorage.GetIsLook` | include/libserver/data/DataStorage.hpp:199-219 | looking for a horse is what `Get` of the cache does |
| `LineageStorage.PatchIsChange` | include/libserver/data/Record.hpp:128-137 | changing a lineage is what a patch of the cache does |
| `LineageStorage.RetryIsRetry` | include/libserver/data/DataStorage.hpp:131-134 | a retry is a retry of the cache |
| `LineageStorage.TickIsTick` | include/libserver/data/DataStorage.hpp:263-319 | a tick with nothing to delete is a tick of the cache |
| `Lineage.HorseSystem.RepairLineage` | src/server/system/HorseSystem.cpp:100-122 | the lineage is raised to the score if that is higher |
| `Lineage.HorseSystem.RepairLineages` | src/server/system/HorseSystem.cpp:85-133 | all horses of the list are repaired one after the other, and the raised lineages are counted |
| `Lineage.RaisedCountsRaises` | src/server/system/HorseSystem.cpp:99-132 | the count is the number of horses whose lineage rose, however often they are listed |
| `LineageModel.ScoreRange` | src/server/ranch/Genetics.cpp:742-757 | the score is between 1 and 9, so the final cap changes nothing |
| `LineageModel.ScoreGrows` | src/server/ranch/Genetics.cpp:737-758 | for a coat other than 0 the score does not fall as more horses become resident |
| `LineageModel.ScoreOfCoatZeroCanFall` | src/server/ranch/Genetics.cpp:261-269 | for coat 0 it can |
| `LineageModel.ScoreGrowsIff` | src/server/ranch/Genetics.cpp:261-281 | the scores of a coat never fall as horses become resident exactly if it is not coat 0 |
| `LineageModel.FirstScoreStays` | src/server/system/HorseSystem.cpp:85-133 | in every world and over any rounds a lineage stays at least the score at its first repair |
| `LineageModel.CoatZeroStaysHigh` | src/server/system/HorseSystem.cpp:113-122 | what absent parents raise for coat 0 is never lowered again |
| `LineageModel.RepairIs` | src/server/system/HorseSystem.cpp:85-133 | a repair raises exactly the listed resident horses to their scores, lowers none, changes nothing else and requests exactly what it looked for that the cache was never asked for |
| `LineageModel.RoundsNeverLower` | src/server/system/HorseSystem.cpp:85-133 | over any rounds, with any failing reads, a lineage never falls, and for a coat other than 0 it never passes the larger of the stored lineage and the score at full residency |
| `LineageModel.LineageAfterRounds` | src/server/system/HorseSystem.cpp:85-133 | after any rounds it is the larger of the stored lineage and the score at the last repair |
| `LineageModel.RepairsConvergeIff` | src/server/system/HorseSystem.cpp:85-133 | it is the larger of the stored lineage and the score at full residency exactly if the stored one was as high, or every existing ancestor that could raise the score was read by the last repair |
| `LineageModel.FirstReadFails` | include/libserver/data/DataStorage.hpp:304-316 | a first read of a parent that fails leaves it asked for and not read |
| `LineageModel.FailedReadIsFinal` | include/libserver/data/DataStorage.hpp:199-219 | such a horse is not read in any later round unless somebody retries it |
| `LineageModel.FailedReadKeepsLineageLow` | src/server/system/HorseSystem.cpp:85-133 | then a lineage below its score at full residency stays below it in every later round, if that parent has the coat |
| `LineageModel.FoalWithMotherIsLow` | src/server/system/HorseSystem.cpp:85-133 | a foal that happens to |
| `LineageModel.GrandparentGetsRead` | src/server/ranch/Genetics.cpp:114-135 | if no read of it or of its child fails, a grandparent is resident after two rounds |
| `LineageModel.RepairsConverge` | src/server/system/HorseSystem.cpp:85-133 | if no read of an ancestor has failed or fails, the lineage is the larger of the stored one and the score at full residency from the third repair on |
| `ClassProgress.GetCumulativeClassExp` | src/libserver/registry/HorseRegistry.cpp:633-653 | the closed form is the sum of the costs of the single levels, for every level and all costs, up to 32-bit wrap-around |
| `ClassProgress.FurtherLevels` | src/libserver/registry/HorseRegistry.cpp:645-650 | the sum of the level costs in closed form |
| `ClassProgress.Horse.ApplyClassProgress` | src/libserver/registry/HorseRegistry.cpp:655-675 | below class 30 the progress is added, the class climbs while the next level is paid for, and one growth point is gained per level and one more for level 30 |
| `ClassProgress.ApplyIsGain` | src/libserver/registry/HorseRegistry.cpp:655-675 | field by field, whatever the costs: the progress is added, the class does not fall, and there is one growth point per level gained and one more for level 30; from class 30 on nothing changes |
| `ClassProgress.ClimbIsExact` | src/libserver/registry/HorseRegistry.cpp:667-672 | the class is the largest level up to 30 whose cumulative cost is reached, or the old one if that is higher |
| `ClassProgress.ClimbIsExactIff` | src/libserver/registry/HorseRegistry.cpp:633-672 | for all progress that is so exactly if the cumulative cost of level 30 fits 32 bits |
| `ClassProgress.LargeCostsDoNotFit` | include/libserver/registry/HorseRegistry.hpp:108-113 | non-negative costs need not fit |
| `ClassProgress.DefaultCostsFit` | include/libserver/registry/HorseRegistry.hpp:108-113 | the default costs fit |
| `ClassProgress.ApplyKeepsEarned` | src/libserver/registry/HorseRegistry.cpp:655-675 | a class that is the one its progress is worth stays so |
| `ClassProgress.SplitGain` | src/libserver/registry/HorseRegistry.cpp:655-675 | gaining a and then b gives the class and growth points of gaining a + b; the stored progress is the same exactly unless the first part reached level 30 and more followed |
| `ClassProgress.SplitGainIff` | src/libserver/registry/HorseRegistry.cpp:664 | with wrap-around of the progress, exactly when the law still holds |
| `RaceResults.RaceInstance.DetermineWinner` | src/server/race/RaceInstance.cpp:98-113 | in a team race with a connected finisher the team of the first of the fastest, otherwise `Solo` |
| `RaceResults.RaceInstance.Sort` | src/server/race/RaceInstance.cpp:224-245 | a permutation in the order of the results |
| `RaceResults.RaceInstance.Stop` | src/server/race/RaceInstance.cpp:90-245 | the scores are those of the racers in the order of the results, and the best-ranked racer in the room becomes master; without one the master stays |
| `RaceResults.OrderedIff` | src/server/race/RaceInstance.cpp:224-245 | scores are in order exactly if nobody precedes the winning team and, within it and within the rest, nobody but a connected finisher that is as fast precedes a connected finisher and nobody disconnected precedes anybody connected |
| `RaceResults.ResultIsPublished` | src/server/race/RaceInstance.cpp:98-245 | what is published is one entry for each racer, with a time only for the connected ones, in that order |
| `RaceResults.RaceInstance.AssignMaster` | src/server/race/RaceInstance.cpp:251-293 | the new master is the first of the scores who is in the room |
| `RaceResults.FirstIsFastestIff` | src/server/race/RaceInstance.cpp:224-245 | if anybody connected finished, the first entry has the least time of all connected finishers exactly in a team race, or if nobody is solo, or if one of the fastest is |
| `RaceResults.FastestNeedNotComeFirst` | src/server/race/RaceInstance.cpp:98-113 | outside of team races a racer on a team can finish first and not be first |
| `RaceResults.MasterIsBestPresent` | src/server/race/RaceInstance.cpp:255-293 | no racer in the room ranks before the new master, and there is none exactly if no racer is in the room |
| `MagicGauge.CourageIsFaster` | src/server/race/RaceInstance.cpp:721-722 | without overflow more courage never slows the gauge |
| `MagicGauge.RaceInstance.Settle` | src/server/race/RaceInstance.cpp:700-741 | one racer: the whole intervals since the anchor are counted, the anchor is moved, and the gauge is filled up to its maximum |
| `MagicGauge.RaceInstance.TickMagicGauge` | src/server/race/RaceInstance.cpp:679-761 | every racer in the room is settled once and told, nobody else is, and nothing happens before the start |
| `MagicGauge.GaugeFallsIff` | src/server/race/RaceInstance.cpp:716-740 | a tick never takes the gauge over its maximum and lowers it exactly if the 32-bit sum wraps around |
| `MagicGauge.GaugeRisesIff` | src/server/race/RaceInstance.cpp:713-740 | a tick raises a gauge below its maximum exactly if there is something to gain and the racer has no item in hand or the set for holding one |
| `MagicGauge.PlainGainIs` | src/server/race/RaceInstance.cpp:721-722 | without overflow a tick gains the points scaled by the courage of the mount |
| `MagicGauge.GainSteps` | src/server/race/RaceInstance.cpp:724-735 | and then the set bonus, the buff and the item in hand scale it, in this order, for any loadout |
| `MagicGauge.SetBonusIsFaster` | src/server/race/RaceInstance.cpp:724-735 | without overflow the set bonus never slows the gauge, for any loadout |
| `MagicGauge.BuffDoubles` | src/server/race/RaceInstance.cpp:728-735 | without overflow either buff doubles the gain and both do no more, for any loadout, up to the rounding with an item in hand |
| `MagicGauge.HoldingIsSlower` | src/server/race/RaceInstance.cpp:732-734 | without overflow holding an item is no faster, for any loadout and a scale up to 10000 |
| `MagicGauge.TicksAreAccounted` | src/server/race/RaceInstance.cpp:697-711 | over any ticks, with anything happening in between, the intervals counted never exceed the time settled and are at least half of it |
| `MagicGauge.HalfIsTight` | src/server/race/RaceInstance.cpp:704-709 | the half cannot be improved |
| `MagicGauge.GaugeFills` | src/server/race/RaceInstance.cpp:713-740 | without overflow a gauge left alone gains the same for every interval counted, however the ticks are spaced |
| `Messenger.MessengerDirector.HandleBuddyAdd` | src/server/messenger/MessengerDirector.cpp:553-617 | a request is put on the pending list of the target, unless the target is unknown, is oneself, or has one already |
| `Messenger.MessengerDirector.AcceptFriendRequest` | src/server/messenger/MessengerDirector.cpp:684-707 | the friend leaves the pending list and joins the default group, which is created if it is missing |
| `Messenger.MessengerDirector.HandleBuddyAddReply` | src/server/messenger/MessengerDirector.cpp:637-791 | an accepted request makes both friends of each other, a rejected one only leaves the pending list |
| `Messenger.MessengerDirector.DeleteFriend` | src/server/messenger/MessengerDirector.cpp:813-828 | the friend leaves every group |
| `Messenger.MessengerDirector.HandleBuddyDelete` | src/server/messenger/MessengerDirector.cpp:794-835 | both leave the groups of each other; if the own record is unavailable only one does |
| `Messenger.MessengerDirector.HandleBuddyMove` | src/server/messenger/MessengerDirector.cpp:861-931 | the friend leaves the first group that holds it for the target group, or the move is refused with its reason |
| `Messenger.MessengerDirector.HandleGroupAdd` | src/server/messenger/MessengerDirector.cpp:941-992 | a new empty group numbered after the largest one |
| `Messenger.MessengerDirector.HandleGroupRename` | src/server/messenger/MessengerDirector.cpp:1000-1042 | an existing group gets a name no group has, or the renaming is refused with its reason |
| `Messenger.MessengerDirector.HandleGroupDelete` | src/server/messenger/MessengerDirector.cpp:1050-1104 | the members go back to the default group and the group is gone, or the deletion is refused with its reason |
| `ContactsModel.BefriendAdds` | src/server/messenger/MessengerDirector.cpp:684-707 | accepting adds exactly the friend |
| `ContactsModel.BefriendGroups` | src/server/messenger/MessengerDirector.cpp:684-707 | it is the default group that gains the friend, and no other |
| `ContactsModel.UnfriendRemoves` | src/server/messenger/MessengerDirector.cpp:813-828 | deleting removes exactly the friend |
| `ContactsModel.MoveKeepsFriends` | src/server/messenger/MessengerDirector.cpp:877-925 | a move happens exactly if the group exists, does not hold the friend and another does; it keeps all friends and all other memberships |
| `ContactsModel.MoveLeavesFirst` | src/server/messenger/MessengerDirector.cpp:896-925 | the friend leaves the group with the smallest number that holds it, and no other |
| `ContactsModel.MoveIsRefusedIff` | src/server/messenger/MessengerDirector.cpp:877-925 | exactly when and why a move is refused |
| `ContactsModel.AddGroupIsFresh` | src/server/messenger/MessengerDirector.cpp:952-984 | the new group has a UID of its own exactly as long as the largest is not the last 32-bit number |
| `ContactsModel.AddGroupIsNext` | src/server/messenger/MessengerDirector.cpp:952-984 | the new group is numbered one after the largest |
| `ContactsModel.RenameKeepsFriends` | src/server/messenger/MessengerDirector.cpp:1007-1034 | renaming changes one name and no member |
| `ContactsModel.RenameIsDoneIff` | src/server/messenger/MessengerDirector.cpp:1007-1034 | exactly when a renaming is done, and why it is refused |
| `ContactsModel.DeleteGroupLoses` | src/server/messenger/MessengerDirector.cpp:1058-1091 | deleting a group keeps all friends, except that deleting group 0 loses exactly the friends only it holds |
| `ContactsModel.DeleteGroupMoves` | src/server/messenger/MessengerDirector.cpp:1072-1091 | the members of a deleted group join the default group and no other |
| `ContactsModel.DeleteGroupIsRefusedIff` | src/server/messenger/MessengerDirector.cpp:1058-1071 | exactly when and why a deletion is refused |
| `ContactsModel.RequestIsDoneIff` | src/server/messenger/MessengerDirector.cpp:553-617 | exactly when a request is done, ignored, or ends with an error |
| `ContactsModel.ReplyIsDoneIff` | src/server/messenger/MessengerDirector.cpp:637-681 | exactly when a reply is done, ignored, or ends with an error |
| `ContactsModel.DeletionIsDoneIff` | src/server/messenger/MessengerDirector.cpp:794-835 | exactly when a deletion is done, cancelled, or ends with an error halfway |
| `ContactsModel.OwnRecordIsNeeded` | src/server/messenger/MessengerDirector.cpp:861-1104 | the requests to the own groups end with an error exactly if the own record is unavailable, and then change nothing |
| `Friendship.StepChangesLists` | src/server/messenger/MessengerDirector.cpp:553-1091 | what every request does to who lists whom |
| `Friendship.StepChangesPending` | src/server/messenger/MessengerDirector.cpp:553-1091 | what every request does to who waits on whose pending list |
| `Friendship.PendingAfterRunIff` | src/server/messenger/MessengerDirector.cpp:553-714 | after a run a request waits exactly if it did before and was not answered, or it was made in the run and not answered after that |
| `Friendship.ReplyBefriendsIff` | src/server/messenger/MessengerDirector.cpp:637-714 | an accepted reply makes two characters list each other exactly if both records are available, or they did before |
| `Friendship.PendingIsIrrelevant` | src/server/messenger/MessengerDirector.cpp:553-1091 | what any request does to the lists does not depend on who is pending |
| `Friendship.FriendsWithoutRequest` | src/server/messenger/MessengerDirector.cpp:637-714 | so any two characters whose records are available become friends in a run without any request |
| `Friendship.NewFriendTakesReply` | src/server/messenger/MessengerDirector.cpp:637-714 | a character that is listed after a run and was not before has accepted or was accepted in it, while both records were available |
| `Friendship.ListedAfterRunIff` | src/server/messenger/MessengerDirector.cpp:553-1091 | a character lists another after a run exactly if it did before and nothing removes it, or it is accepted in the run and nothing removes it after that |
| `Friendship.StepStaysMutualIff` | src/server/messenger/MessengerDirector.cpp:553-1091 | friendship stays mutual in a step exactly unless somebody deletes a friend while the own record is unavailable, or deletes group 0 while only it holds somebody else |
| `Friendship.RunStaysMutualIff` | src/server/messenger/MessengerDirector.cpp:553-1091 | friendship is mutual throughout a run exactly if every step of it is harmless |
| `Friendship.RunStaysMutual` | src/server/messenger/MessengerDirector.cpp:553-1091 | after any run of harmless steps friendship is mutual |
| `Friendship.UsualRunIsHarmless` | src/server/messenger/MessengerDirector.cpp:553-1091 | a run in which who deletes a friend is there and nobody deletes group 0 is harmless, and every character keeps its default group |
| `Friendship.WellGroupedIsLegal` | src/server/messenger/MessengerDirector.cpp:960-1076 | then adding a group is always defined and deleting one never misses the default group |
| `Friendship.HalfDeletion` | src/server/messenger/MessengerDirector.cpp:829-835 | a deletion without the own record leaves a one-sided friendship |
| `Mailbox.Character.HandleLetterList` | src/server/messenger/MessengerDirector.cpp:1106-1224 | the page of the requested folder, or the refusal |
| `Mailbox.Character.EraseHidden` | src/server/messenger/MessengerDirector.cpp:1171-1188 | the mails that are available and not deleted, in order |
| `Mailbox.Character.CopyPage` | src/server/messenger/MessengerDirector.cpp:1206-1223 | at most ten and at most the requested number of mails, and whether there are more |
| `Mailbox.FilteredIs` | src/server/messenger/MessengerDirector.cpp:1171-1188 | the shown mails are exactly those, and distinct if the mailbox is |
| `Mailbox.PageFollowsLast` | src/server/messenger/MessengerDirector.cpp:1193-1223 | a page after a shown mail is the beginning of the shown mails after it, whatever happened to the others |
| `Mailbox.PageIsExact` | src/server/messenger/MessengerDirector.cpp:1163-1224 | a page has exactly the requested number of mails, at most ten, as far as there are that many, mail by mail, and says whether any are left; there is none exactly if the last mail is not in the mailbox |
| `Mailbox.StartsOverIff` | src/server/messenger/MessengerDirector.cpp:1196-1204 | paging starts over exactly if the last mail has been hidden |
| `Mailbox.WalkIsComplete` | src/server/messenger/MessengerDirector.cpp:1163-1224 | following the pages from any mail gives exactly the shown mails after it, in order, on pages of at most ten, and ends |
| `Mailbox.WalkShowsTheMailbox` | src/server/messenger/MessengerDirector.cpp:1163-1224 | from the beginning it gives exactly the shown mails |
| `Mailbox.DistinctIsWalkable` | src/server/messenger/MessengerDirector.cpp:1163-1224 | which holds for every mailbox of distinct mails |
| `Mailbox.WalkEndsIff` | src/server/messenger/MessengerDirector.cpp:1163-1224 | following the pages ends for all positive counts exactly if every shown mail but the last is a proper one not shown before |
| `Mailbox.NoneGetsNowhere` | src/server/messenger/MessengerDirector.cpp:1212-1223 | a request for no mails gets an empty page and never ends |
| `Mailbox.DuplicatesRepeat` | src/server/messenger/MessengerDirector.cpp:1199-1203 | with a mail listed twice the same page comes again |
| `Server.Server.IsConnectionThrottled` | src/libserver/network/Server.cpp:349-378 | refused exactly with ten active connections or ten timestamps left in the window; otherwise both are counted |
| `Server.Server.Accept` | src/libserver/network/Server.cpp:400-449 | a connection that is not throttled becomes a running client with a fresh id |
| `Server.Server.OnThrottleDisconnect` | src/libserver/network/Server.cpp:380-398 | the counter goes down, and an address with nothing left is forgotten |
| `Server.Server.EndClient` | src/libserver/network/Server.cpp:64-83 | only the first end of a client counts: it is unregistered and its address has one active connection less |
| `ThrottleModel.AcceptKeepsInv` | src/libserver/network/Server.cpp:349-378 | accepting or refusing keeps: the timestamps are the latest accepted connections, everything older is out of the window, eleven accepted connections span it |
| `ThrottleModel.EndKeepsInv` | src/libserver/network/Server.cpp:328-398 | ending a client keeps that |
| `ThrottleModel.RunKeepsInv` | src/libserver/network/Server.cpp:328-449 | every run with a clock that does not go back keeps that |
| `ThrottleModel.ThrottleHolds` | src/libserver/network/Server.cpp:34-398 | in every run every half-open window of 30 seconds has at most ten accepted connections of an address, and its counter is the number of its clients not yet ended, at most ten |
| `ThrottleModel.AcceptedIff` | src/libserver/network/Server.cpp:349-378 | a connection is accepted exactly if fewer than ten are active and fewer than ten were accepted within the last window |
| `ThrottleModel.EndsOnce` | src/libserver/network/Server.cpp:64-83 | ending a client twice is ending it once, and its counter goes down once |
| `ThrottleModel.StaysRememberedIff` | src/libserver/network/Server.cpp:380-398 | the address of a client that ends stays remembered exactly if another client of it has not ended or it has timestamps left |
| `ThrottleModel.StampsStay` | src/libserver/network/Server.cpp:349-398 | only a connection of an address changes its timestamps |
| `ThrottleModel.NeverForgotten` | src/libserver/network/Server.cpp:349-398 | after every run an address is remembered exactly if it ever tried to connect: there are always timestamps left |
| `Lobby.Lobby.HandleClientConnected` | src/server/lobby/LobbyNetworkHandler.cpp:642-658 | a client without a name and a connect job |
| `Lobby.Lobby.HandleLogin` | src/server/lobby/LobbyNetworkHandler.cpp:681-718 | a login with an empty name or token or a name that is logged in is refused; any other gives the client its name and queues a job |
| `Lobby.Lobby.HandleClientDisconnected` | src/server/lobby/LobbyNetworkHandler.cpp:660-679 | the client is gone and the disconnect job remembers whether it was authenticated |
| `Lobby.Lobby.AcceptLogin` | src/server/lobby/LobbyNetworkHandler.cpp:318-343 | a connected client becomes authenticated; one that is gone is ignored |
| `Lobby.Lobby.RejectLogin` | src/server/lobby/LobbyNetworkHandler.cpp:345-360 | a connected client is told; one that is gone is ignored |
| `Lobby.Lobby.QueueClientConnect` | src/server/lobby/LobbyDirector.cpp:83-89 | a fresh login, unless there is one |
| `Lobby.Lobby.QueueClientLogin` | src/server/lobby/LobbyDirector.cpp:91-106 | the login gets its name and token and is queued; the position, or 99 without a login |
| `Lobby.Lobby.QueueClientDisconnect` | src/server/lobby/LobbyDirector.cpp:126-132 | the client leaves both queues and its login is gone |
| `Lobby.Lobby.QueueClientLogout` | src/server/lobby/LobbyDirector.cpp:134-150 | the user instance is gone |
| `Lobby.Lobby.SchedulerTick` | src/server/lobby/LobbyNetworkHandler.cpp:653-676 | the oldest job is run |
| `Lobby.Lobby.Authenticate` | src/server/authentication/AuthenticationService.cpp:80-106 | the oldest request gets the answer of the backend to its name and token, if there is one; the verdict names only the user |
| `Lobby.Lobby.PollVerdicts` | src/server/lobby/LobbyDirector.cpp:64-78 | every login takes the last verdict on its name |
| `Lobby.Lobby.ProcessLoginRequest` | src/server/lobby/LobbyDirector.cpp:302-380 | the head of the request queue asks, waits, is refused or is passed on |
| `Lobby.Lobby.CheckUser` | src/server/lobby/LobbyDirector.cpp:346-379 | with the data there, the login is refused without user data or with a ban, and passed on otherwise |
| `Lobby.Lobby.ProcessLoginResponse` | src/server/lobby/LobbyDirector.cpp:382-472 | the head of the response queue waits, is refused or is admitted |
| `Lobby.Lobby.AnswerLogin` | src/server/lobby/LobbyDirector.cpp:424-446 | with the data there, the login is refused without character data or for a user that is online, and admitted otherwise |
| `Lobby.Lobby.AdmitUser` | src/server/lobby/LobbyDirector.cpp:435-471 | the user instance is created, the client is told if it is there, and only then the login is forgotten |
| `LoginRuns.NextKeepsQueues` | src/server/lobby/LobbyDirector.cpp:83-132 | every step keeps: no client is queued twice, and who is queued has the name it gave |
| `LoginRuns.NextKeepsAuth` | src/server/lobby/LobbyDirector.cpp:64-78 | every step keeps: a login that counts as authenticated has had a positive verdict on its name |
| `LoginRuns.NextKeepsAdmission` | src/server/lobby/LobbyDirector.cpp:302-472 | every step keeps: who is in the response queue has passed all checks, and so had everybody admitted |
| `LoginRuns.NextKeepsTokens` | src/server/lobby/LobbyDirector.cpp:91-106 | every step keeps: a client is queued at most once, so it has one token |
| `LoginRuns.NextKeepsSessions` | src/server/lobby/LobbyNetworkHandler.cpp:660-718 | every step keeps: a name has at most one authenticated client or pending logout, and then its user instance |
| `LoginRuns.LoginKeepsSessionsIff` | src/server/lobby/LobbyNetworkHandler.cpp:694-707 | a login keeps that exactly if it is refused, its client is not authenticated yet, or the name has an instance without a client |
| `LoginCases.SecondLoginBreaksSessions` | src/server/lobby/LobbyNetworkHandler.cpp:694-707 | for any two names, a run after which a second login on one connection leaves an authenticated client whose name has no user instance |
| `LoginRuns.NextKeepsNamesIff` | src/server/lobby/LobbyNetworkHandler.cpp:318-707 | in any world whatsoever, a step makes two clients logged in under one name exactly if it admits a connected client while somebody else is logged in under its name; a login never does |
| `LoginCases.SecondLoginSharesName` | src/server/lobby/LobbyNetworkHandler.cpp:318-707 | for any two names, a run in which a second login on one connection leads to two clients logged in under one name |
| `LoginRuns.LoginKeepsQueuesIff` | src/server/lobby/LobbyNetworkHandler.cpp:681-718 | a login keeps the order of the queues exactly if it is refused or its client has no login that is queued, decided or still a job |
| `LoginRuns.QueueLoginKeepsAuthIff` | src/server/lobby/LobbyDirector.cpp:91-106 | queueing a login keeps that who counts as authenticated has had a positive verdict on its name exactly if its client does not count as authenticated, or has had one on the new name |
| `LoginRuns.QueueLoginKeepsAdmissionIff` | src/server/lobby/LobbyDirector.cpp:91-106 | it keeps that who waits to be admitted has passed all checks exactly if its client does not wait, or has passed them under the new name |
| `LoginRuns.LoginKeepsTokensIff` | src/server/lobby/LobbyNetworkHandler.cpp:681-718 | a login keeps that every client has one token exactly if it is refused or its client was never queued |
| `LoginRuns.QueueLoginStaysExclusiveIff` | src/server/lobby/LobbyDirector.cpp:91-106 | queueing a login keeps the queues exclusive exactly if its client is not queued already |
| `LoginRuns.OneSessionPerName` | src/server/lobby/LobbyNetworkHandler.cpp:694-703 | in every run no two connected authenticated clients share a user name |
| `LoginRuns.QueuedOnce` | src/server/lobby/LobbyDirector.cpp:91-132 | in every run no client is in both queues or twice in one |
| `LoginRuns.AdmissionIsEarned` | src/server/lobby/LobbyDirector.cpp:302-446 | in every run a user instance is created only for a client that logged in under the name, after a positive verdict on the name, loaded user data, no ban and, with a character, loaded character data |
| `LoginRuns.OwnTokenOrAnother` | src/server/lobby/LobbyDirector.cpp:64-78 | without a positive verdict on its own token a client is admitted only if another one logged in under its name with a token that had one |
| `LoginRuns.OwnTokenDecides` | src/server/lobby/LobbyDirector.cpp:64-78 | so with nobody else under the name the own token decides |
| `LoginRuns.PollDecides` | src/server/lobby/LobbyDirector.cpp:64-78 | a poll leaves a login authenticated exactly if the last verdict on its name is positive, or there is none and it was authenticated before |
| `LoginCases.AdmittedOnTokenOfAnother` | src/server/lobby/LobbyDirector.cpp:41-472 | for every name and any two different tokens, a run in which a client is admitted whose own token only had a negative verdict |
| `LoginCases.AdmittedUnconfirmedIff` | src/server/lobby/LobbyDirector.cpp:41-472 | with one other login under the name there is a run that admits a client without a positive verdict on its own token exactly if the two tokens differ |
| `LoginRuns.VerdictsAreShared` | src/server/lobby/LobbyDirector.cpp:68-76 | all logins under a name that a poll decides are decided alike |
| `LoginRuns.AdmissionOrphansIff` | src/server/lobby/LobbyDirector.cpp:435-471 | an admission leaves an instance without a client exactly if the client is gone by then |
| `LoginRuns.OrphanStays` | src/server/lobby/LobbyDirector.cpp:435-446 | such an instance stays in every run: nobody logs in under the name again |
| `LoginRuns.LoginAdoptsOrphanIff` | src/server/lobby/LobbyNetworkHandler.cpp:705-707 | a login gives it a client exactly if an authenticated client logs in a second time, under its name |
| `LoginCases.OrphanArises` | src/server/lobby/LobbyDirector.cpp:382-472 | for every name and token, a run in which it arises |
| `LoginRuns.NextLeavesOrphanIff` | src/server/lobby/LobbyDirector.cpp:126-154 | in no other step does an instance lose its client: who disconnects while logged in is logged out |
| `LoginRuns.DisconnectForgets` | src/server/lobby/LobbyDirector.cpp:126-132 | after its disconnect job a client is in no queue and has no login, and the others keep their order |
| `LoginDecisions.LoginIsRefusedIff` | src/server/lobby/LobbyNetworkHandler.cpp:681-718 | exactly when and why a login is refused at the door; any other gives the client its name and queues a job |
| `LoginDecisions.RequestIsDecided` | src/server/lobby/LobbyDirector.cpp:302-380 | exactly when the head of the request queue is passed on, turned away and with which reason, or stays |
| `LoginDecisions.RequestAsks` | src/server/lobby/LobbyDirector.cpp:302-337 | it asks for its verdict and for its user data once each, the one after the other |
| `LoginDecisions.AdmittedIff` | src/server/lobby/LobbyDirector.cpp:382-472 | exactly when the head of the response queue is admitted, with which character, and whether it is told to create one |
| `LoginDecisions.RefusedIff` | src/server/lobby/LobbyDirector.cpp:421-446 | exactly when it is refused and with which reason |
| `LoginDecisions.ResponseWaitsIff` | src/server/lobby/LobbyDirector.cpp:382-422 | exactly when it stays the head or asks for its character data |
| `LoginDecisions.AdmissionForgetsLoginIff` | src/server/lobby/LobbyDirector.cpp:448-472 | a login is forgotten after its admission exactly if its client is connected and has an address |
| `LoginCases.CharacterIsAdmitted` | src/server/lobby/LobbyDirector.cpp:382-472 | for every name, token and character a run that admits a user with that character |
| `LoginDecisions.AnswersComeInOrder` | src/server/authentication/AuthenticationService.cpp:80-106 | what the backend was asked is answered in order, each request once and with its own token |

## Left out

- The cache reads the clock anew for every failed retrieval; the model reads it once per tick.
- A failed retrieval may leave a partly filled value behind in an unavailable entry; the model leaves the value alone, and nobody can read it before the next retrieval replaces it.
- A record handle from `GetOrCreate` on a pending entry: patches through it queue a store but are lost when the retrieval arrives; the plain map does not see them.
- Memory order, and the lock-free reads of the cache (`IsAvailable`, `GetKeys`): steps are sequentially consistent.
- The job list of the scheduler is appended to under a lock that `Tick` does not take; the model has no data race.
- What the bodies of the load jobs retrieve: whether a body finds everything is an input of the tick that runs it.
- The seventeen visitor calls of the cleanser are a table of fields here, in the same order; the reference names, which are only logged, are dropped.
- The cleanser on a character or user whose record is unavailable, which does nothing.
- `FoalStats.CalculateFoalStats`: the weights of the random draws are not modelled, only the range of what can be drawn; floating-point products may come out one below, wherever they like, and are otherwise exact.
- `FoalStats.CalculateFoalGrade`: the rounding of the column sums is any function; the fertility bonus and the second cap of the caller are not modelled.
- Inherited shapes, coats, manes, potentials and emblems of foals, and `ApplyPotentialGrowth`: table lookups and draws.
- `AliciaTime.DurationToAliciaTime`: the narrowing of year counts that do not fit 32 bits, which no 64-bit nanosecond clock reaches.
- Rewards, names, levels and horse data on the score board, and its broadcast; a character record that is unavailable, which ends the evaluation of the race with an error.
- `RaceResults.RaceInstance.Sort`: stands for the sort of the standard library and is specified only as a permutation in order, so ties may come in any order.
- Everything else that fills or spends the magic gauge: the accounting allows any of it between ticks.
- Notifications to friends who are online, presence, and creation times of groups.
- `Messenger.MessengerDirector.HandleGroupAdd`: a character without any group, for which the code dereferences the end of an empty map.
- Loading the contents of the mails of a page after it has been chosen.
- Sockets and the accept loop around the throttle, connections that break before their address is known, and the limit on all connections together, which the code declares and does not use.
- `LoginRuns.OneSessionPerName`: a connection that gets a second login past the door; what that does is stated separately, as it is for the theorems that follow.
- `LoginRuns.QueuedOnce`: the same; see `LoginRuns.LoginKeepsQueuesIff`.
- `LoginRuns.OrphanStays`: the same; such a login can take the instance over, see `LoginRuns.LoginAdoptsOrphanIff`.
- `LoginRuns.AdmissionIsEarned`: the same; see `LoginRuns.QueueLoginKeepsAuthIff` and `LoginRuns.QueueLoginKeepsAdmissionIff`.
- `LoginRuns.OwnTokenOrAnother`: the same.
- `LoginRuns.OwnTokenDecides`: the same.
- `LoginCases.AdmittedUnconfirmedIff`: the runs are the same.
- `LoginRuns.NextKeepsQueues`: the same; see `LoginRuns.LoginKeepsQueuesIff`.
- `LoginRuns.NextKeepsAuth`: the same; see `LoginRuns.QueueLoginKeepsAuthIff`.
- `LoginRuns.NextKeepsAdmission`: the same; see `LoginRuns.QueueLoginKeepsAdmissionIff`.
- `LoginRuns.NextKeepsTokens`: the same; see `LoginRuns.LoginKeepsTokensIff`.
- `LoginRuns.NextKeepsSessions`: the same; see `LoginRuns.LoginKeepsSessionsIff`.
- `AliciaTime.UnpackPacked`: negative hours and minutes, which no caller passes.
- The repair of lineages of horses whose records are deleted meanwhile.
- The waiting of the clients, heartbeats, one-time codes, guild invitations and the character creator beyond its flag.
- The messages of the protocol, their codecs, YAML parsing, the file and Postgres sources, logging.
- Chat, ranch, quests, items, rewards, match-making and the breeding market.
