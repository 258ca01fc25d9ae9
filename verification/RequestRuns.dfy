/**
 What becomes of single requests to the cache in a run: how often and since when reads have failed, and when
 a requested deletion or store is carried out.
 */
module RequestRuns {
  import opened StorageModel
  import opened DataStorageRuns
  import R = DataRepairModel

  // ---------------------------------------------------------------------------------------------
  // Failing reads.

  ghost predicate Reads<Key, Data>(w: World<Key, Data>, op: Op<Key, Data>, key: Key) {
    op.Tick? && key in w.retrieveQueue.data
  }

  ghost function ReadOnce<Key, Data>(w: World<Key, Data>, op: Op<Key, Data>, key: Key, times: seq<int>): seq<int> {
    if !Reads(w, op, key) then times
    else if key in w.source && key !in op.outcomes.readFails then []
    else times + [op.outcomes.now]
  }

  /** The times of the failed reads of the key since it was last loaded; before the run they are `times`. */
  ghost function FailedReads<Key, Data>(
    w: World<Key, Data>, ops: seq<Op<Key, Data>>, key: Key, times: seq<int>): seq<int>
    requires LegalRun(w, ops)
    decreases |ops|
  {
    if ops == [] then times else FailedReads(Step(w, ops[0]), ops[1..], key, ReadOnce(w, ops[0], key, times))
  }

  /** The entry counts them, with wrap-around, and keeps the time of the first one counted since the count was
      last 0. */
  ghost predicate Counts<Data>(e: Entry<Data>, times: seq<int>) {
    && e.retrieveFailureCount == |times| % COUNTER_MODULUS
    && (times != [] ==>
          e.firstRetrieveFailure ==
          times[|times| - if e.retrieveFailureCount == 0 then COUNTER_MODULUS else e.retrieveFailureCount])
  }

  ghost predicate SameFailures<Data>(e: Entry<Data>, f: Entry<Data>) {
    e.retrieveFailureCount == f.retrieveFailureCount && e.firstRetrieveFailure == f.firstRetrieveFailure
  }

  lemma RequestKeepsFailures<Key, Data>(w: World<Key, Data>, op: Op<Key, Data>, key: Key)
    requires Legal(w, op) && !op.Tick?
    ensures SameFailures(EntryAt(Step(w, op), key), EntryAt(w, key))
  {
  }

  lemma TickKeepsOtherFailures<Key, Data>(w: World<Key, Data>, o: Outcomes<Key>, key: Key)
    ensures SameFailures(EntryAt(StorageModel.Tick(w, o), key), EntryAt(ProcessRetrieve(w, o), key))
  {
    var r := ProcessRetrieve(w, o);
    var s := ProcessStore(r, o);
    assert EntryAt(s, key) == EntryAt(r, key);
  }

  lemma OneMoreFailure<Data>(e: Entry<Data>, f: Entry<Data>, times: seq<int>, now: int)
    requires Counts(e, times)
    requires f.retrieveFailureCount == (e.retrieveFailureCount + 1) % COUNTER_MODULUS
    requires f.firstRetrieveFailure == if e.retrieveFailureCount == 0 then now else e.firstRetrieveFailure
    ensures Counts(f, times + [now])
  {
  }

  lemma RetrievalCounts<Key(!new), Data>(w: World<Key, Data>, o: Outcomes<Key>, key: Key, times: seq<int>)
    requires Inv(w) && Counts(EntryAt(w, key), times)
    ensures Counts(EntryAt(ProcessRetrieve(w, o), key), ReadOnce(w, Op<Key, Data>.Tick(o), key, times))
  {
    if key in w.retrieveQueue.data && !Loads(w, o, key) {
      OneMoreFailure(EntryAt(w, key), EntryAt(ProcessRetrieve(w, o), key), times, o.now);
    }
  }

  lemma StepCounts<Key(!new), Data>(w: World<Key, Data>, op: Op<Key, Data>, key: Key, times: seq<int>)
    requires Inv(w) && Legal(w, op) && Counts(EntryAt(w, key), times)
    ensures Counts(EntryAt(Step(w, op), key), ReadOnce(w, op, key, times))
  {
    if op.Tick? {
      RetrievalCounts(w, op.outcomes, key, times);
      TickKeepsOtherFailures(w, op.outcomes, key);
    } else {
      RequestKeepsFailures(w, op, key);
    }
  }

  lemma {:induction false} RunCounts<Key(!new), Data>(
    w: World<Key, Data>, ops: seq<Op<Key, Data>>, key: Key, times: seq<int>)
    requires Inv(w) && LegalRun(w, ops) && Counts(EntryAt(w, key), times)
    ensures Counts(EntryAt(Run(w, ops), key), FailedReads(w, ops, key, times))
    decreases |ops|
  {
    if ops != [] {
      StepKeepsInv(w, ops[0]);
      StepCounts(w, ops[0], key, times);
      RunCounts(Step(w, ops[0]), ops[1..], key, ReadOnce(w, ops[0], key, times));
    }
  }

  /** In every run from a fresh cache the failure count of a key is the number of its failed reads since it was last
      loaded, and the time kept is that of the first of them; past 2^32 failures the count starts over, and then
      the time is that of the first since it did. */
  lemma FailuresAreCounted<Key(!new), Data>(
    blank: Data, source: map<Key, Data>, ops: seq<Op<Key, Data>>, key: Key)
    requires LegalRun(Initial(blank, source), ops)
    ensures
      var e := EntryAt(Run(Initial(blank, source), ops), key);
      var times := FailedReads(Initial(blank, source), ops, key, []);
      && Counts(e, times)
      && (0 < |times| < COUNTER_MODULUS ==>
            e.retrieveFailureCount == |times| && e.firstRetrieveFailure == times[0])
  {
    RunCounts(Initial(blank, source), ops, key, []);
  }

  /** So, however often it is retried, a reference is damaged exactly from the grace period after the first of its
      failed reads since it was last loaded. */
  lemma DamagedSinceFirstFailure<D>(
    blank: D, source: map<R.Ref, D>, ops: seq<Op<R.Ref, D>>, ref: R.Ref, now: int)
    requires LegalRun(Initial(blank, source), ops) && ref.uid != R.INVALID_UID
    requires |FailedReads(Initial(blank, source), ops, ref, [])| < COUNTER_MODULUS
    ensures
      var times := FailedReads(Initial(blank, source), ops, ref, []);
      R.Damaged(Run(Initial(blank, source), ops), ref, now) <==> times != [] && now >= times[0] + 2000
  {
    FailuresAreCounted(blank, source, ops, ref);
  }

  /** Only when the count has just started over a reference that fails is not seen as failing. */
  lemma FailingIff<D>(blank: D, source: map<R.Ref, D>, ops: seq<Op<R.Ref, D>>, ref: R.Ref)
    requires LegalRun(Initial(blank, source), ops) && ref.uid != R.INVALID_UID
    ensures
      R.IsFailing(Run(Initial(blank, source), ops), ref)
      <==> |FailedReads(Initial(blank, source), ops, ref, [])| % COUNTER_MODULUS != 0
  {
    FailuresAreCounted(blank, source, ops, ref);
  }

  // ---------------------------------------------------------------------------------------------
  // Deletions and stores.

  ghost predicate NoTick<Key, Data>(ops: seq<Op<Key, Data>>) {
    forall i | 0 <= i < |ops| :: !ops[i].Tick?
  }

  /** What waits for the tick: an available key, a deletion of it, a store of it. */
  ghost predicate Waits<Key, Data>(w: World<Key, Data>, key: Key, deleted: bool, stored: bool) {
    && IsAvailable(w, key)
    && (deleted ==> key in w.deleteQueue.data) && (stored ==> key in w.storeQueue.data)
  }

  ghost predicate Patches<Key, Data>(ops: seq<Op<Key, Data>>, key: Key) {
    exists i | 0 <= i < |ops| :: ops[i].Patch? && ops[i].key == key
  }

  lemma {:induction false} RequestsWait<Key(!new), Data>(
    w: World<Key, Data>, ops: seq<Op<Key, Data>>, key: Key, deleted: bool, stored: bool)
    requires Inv(w) && LegalRun(w, ops) && NoTick(ops) && Waits(w, key, deleted, stored)
    ensures
      var v := Run(w, ops);
      && Inv(v) && Waits(v, key, deleted, stored) && v.source == w.source
      && (!Patches(ops, key) ==> v.entries[key] == w.entries[key])
    decreases |ops|
  {
    if ops != [] {
      var v := Step(w, ops[0]);
      assert forall i | 0 <= i < |ops[1..]| :: ops[1..][i] == ops[i + 1];
      assert !ops[0].Tick?;
      StepKeepsInv(w, ops[0]);
      assert Waits(v, key, deleted, stored);
      RequestsWait(v, ops[1..], key, deleted, stored);
      if !Patches(ops, key) {
        assert !Patches(ops[1..], key);
      }
    }
  }

  /** A requested deletion of an available key is carried out by the next tick exactly if the listener does not fail
      then, whatever else is requested before it; if it fails the request is forgotten. */
  lemma DeletionIsCarriedOutIff<Key(!new), Data>(
    w: World<Key, Data>, ops: seq<Op<Key, Data>>, o: Outcomes<Key>, key: Key)
    requires Inv(w) && IsAvailable(w, key) && NoTick(ops)
    requires LegalRun(Step(w, Op<Key, Data>.Delete(key)), ops)
    ensures
      var v := Run(Step(w, Op<Key, Data>.Delete(key)), ops);
      var after := Step(v, Op<Key, Data>.Tick(o));
      && key !in after.deleteQueue.data
      && if key !in o.deleteFails then !IsAvailable(after, key) && key !in after.source
         else IsAvailable(after, key) && EntryAt(after, key) == EntryAt(v, key)
  {
    var requested := Step(w, Op<Key, Data>.Delete(key));
    StepKeepsInv(w, Op<Key, Data>.Delete(key));
    RequestsWait(requested, ops, key, true, false);
    var v := Run(requested, ops);
    TickAnswers(v, o, key);
  }

  lemma TickAnswers<Key(!new), Data>(v: World<Key, Data>, o: Outcomes<Key>, key: Key)
    requires Inv(v) && Waits(v, key, true, false)
    ensures
      var after := StorageModel.Tick(v, o);
      && key !in after.deleteQueue.data
      && if key !in o.deleteFails then !IsAvailable(after, key) && key !in after.source
         else IsAvailable(after, key) && after.entries[key] == v.entries[key]
  {
    var s := ProcessStore(ProcessRetrieve(v, o), o);
    StoredIff(v, o, key);
    TickGone(v, o);
    TickAvailable(v, o, key);
    assert ProcessDelete(s, o).deleteQueue.data == {};
  }

  /** A requested store of an available key, by a creation, a patch or on request, is carried out by the next tick
      exactly if the store does not fail then, unless the key is deleted in it or patched before it, or the source
      holds the value already; if it fails the request is forgotten. */
  lemma StoreIsCarriedOutIff<Key(!new), Data>(
    w: World<Key, Data>, op: Op<Key, Data>, ops: seq<Op<Key, Data>>, o: Outcomes<Key>)
    requires Inv(w) && Legal(w, op) && (op.Create? || op.Patch? || op.Save?)
    requires op.Create? ==> op.key !in w.entries
    requires IsAvailable(Step(w, op), op.key) && LegalRun(Step(w, op), ops)
    requires NoTick(ops) && !Patches(ops, op.key) && op.key !in Dropped(Run(Step(w, op), ops), o)
    ensures
      var value := Step(w, op).entries[op.key].value;
      var after := Step(Run(Step(w, op), ops), Op<Key, Data>.Tick(o));
      && IsAvailable(after, op.key) && after.entries[op.key].value == value
      && (op.Create? || op.Patch? ==> value == op.data)
      && (InSource(after, op.key)
          <==> op.key !in o.storeFails || (op.key in w.source && w.source[op.key] == value))
      && op.key !in after.storeQueue.data
  {
    var requested := Step(w, op);
    StepKeepsInv(w, op);
    RequestsWait(requested, ops, op.key, false, true);
    var v := Run(requested, ops);
    StoredIff(v, o, op.key);
    assert ProcessStore(ProcessRetrieve(v, o), o).storeQueue.data == {};
  }
}
