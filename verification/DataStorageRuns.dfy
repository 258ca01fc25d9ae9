/**
 What the write-back cache guarantees in every run: it is a plain key-value map (`View`), reads see the
 latest write, deletions are final, and termination leaves exactly the map in the data source.
 */
module DataStorageRuns {
  import opened StorageModel

  /** One request to the cache, or one tick of it. Both `Create` and `GetOrCreate` are `Create` here. */
  datatype Op<Key, Data> =
    | Create(key: Key, data: Data)
    | Get(key: Key, retrieve: bool)
    | Patch(key: Key, data: Data)
    | Delete(key: Key)
    | Save(key: Key)
    | Retry(key: Key)
    | Tick(outcomes: Outcomes<Key>)

  /** A patch needs a record handle, and a retrieval is only retried the way IsDamaged retries it. */
  ghost predicate Legal<Key, Data>(w: World<Key, Data>, op: Op<Key, Data>) {
    match op
    case Patch(key, _) => key in w.entries
    case Retry(key) => EntryAt(w, key).retrieveFailureCount != 0
    case _ => true
  }

  ghost function Step<Key, Data>(w: World<Key, Data>, op: Op<Key, Data>): World<Key, Data>
    requires Legal(w, op)
  {
    match op
    case Create(key, data) => StorageModel.Create(w, key, data)
    case Get(key, retrieve) => StorageModel.Get(w, key, retrieve)
    case Patch(key, data) => StorageModel.Patch(w, key, data)
    case Delete(key) => RequestDelete(w, key)
    case Save(key) => RequestStore(w, key)
    case Retry(key) => RequestRetrieve(w, key)
    case Tick(outcomes) => StorageModel.Tick(w, outcomes)
  }

  ghost predicate LegalRun<Key, Data>(w: World<Key, Data>, ops: seq<Op<Key, Data>>)
    decreases |ops|
  {
    ops == [] || (Legal(w, ops[0]) && LegalRun(Step(w, ops[0]), ops[1..]))
  }

  ghost function Run<Key, Data>(w: World<Key, Data>, ops: seq<Op<Key, Data>>): World<Key, Data>
    requires LegalRun(w, ops)
    decreases |ops|
  {
    if ops == [] then w else Run(Step(w, ops[0]), ops[1..])
  }

  ghost function Initial<Key, Data>(blank: Data, source: map<Key, Data>): World<Key, Data> {
    World(blank, map[], Queue({}, false), Queue({}, false), Queue({}, false), source, {}, {})
  }

  // ---------------------------------------------------------------------------------------------
  // The invariant.

  /** An entry nothing will ever make available again. */
  ghost predicate Dormant<Key, Data>(w: World<Key, Data>, key: Key) {
    IsPending(w, key) && w.entries[key].retrieveFailureCount == 0 && key !in w.retrieveQueue.data
  }

  ghost predicate Flagged<Key>(queue: Queue<Key>) {
    queue.data != {} ==> queue.dataFlag
  }

  /** An available value is in the source, on its way there, or its latest store failed. */
  ghost predicate Coherent<Key, Data>(w: World<Key, Data>, key: Key) {
    IsAvailable(w, key) ==>
      key in w.storeQueue.data || key in w.unsaved || (key in w.source && w.source[key] == w.entries[key].value)
  }

  ghost predicate Inv<Key(!new), Data>(w: World<Key, Data>) {
    && Flagged(w.retrieveQueue) && Flagged(w.storeQueue) && Flagged(w.deleteQueue)
    && (forall key | key in w.retrieveQueue.data :: IsPending(w, key))
    && (forall key | IsAvailable(w, key) :: w.entries[key].retrieveFailureCount == 0)
    && (forall key | key in w.deleted :: Dormant(w, key) && key !in w.source)
    && (forall key :: Coherent(w, key))
  }

  lemma RetrieveKeepsInv<Key(!new), Data>(w: World<Key, Data>, o: Outcomes<Key>)
    requires Inv(w)
    ensures Inv(ProcessRetrieve(w, o))
  {
    var w' := ProcessRetrieve(w, o);
    forall key
      ensures Coherent(w', key)
    {
      assert Coherent(w, key);
    }
  }

  lemma StoreKeepsInv<Key(!new), Data>(w: World<Key, Data>, o: Outcomes<Key>)
    requires Inv(w)
    ensures Inv(ProcessStore(w, o))
  {
    var w' := ProcessStore(w, o);
    forall key
      ensures Coherent(w', key)
    {
      assert Coherent(w, key);
    }
  }

  lemma DeleteKeepsInv<Key(!new), Data>(w: World<Key, Data>, o: Outcomes<Key>)
    requires Inv(w)
    ensures Inv(ProcessDelete(w, o))
  {
    var w' := ProcessDelete(w, o);
    forall key
      ensures Coherent(w', key)
    {
      assert Coherent(w, key);
    }
  }

  lemma TickKeepsInv<Key(!new), Data>(w: World<Key, Data>, o: Outcomes<Key>)
    requires Inv(w)
    ensures Inv(StorageModel.Tick(w, o))
  {
    RetrieveKeepsInv(w, o);
    StoreKeepsInv(ProcessRetrieve(w, o), o);
    DeleteKeepsInv(ProcessStore(ProcessRetrieve(w, o), o), o);
  }

  lemma RequestKeepsCoherent<Key, Data>(w: World<Key, Data>, op: Op<Key, Data>, key: Key)
    requires Legal(w, op) && !op.Tick? && Coherent(w, key)
    ensures Coherent(Step(w, op), key)
  {
  }

  lemma StepKeepsInv<Key(!new), Data>(w: World<Key, Data>, op: Op<Key, Data>)
    requires Inv(w) && Legal(w, op)
    ensures Inv(Step(w, op))
  {
    if op.Tick? {
      TickKeepsInv(w, op.outcomes);
    } else {
      forall key
        ensures Coherent(Step(w, op), key)
      {
        RequestKeepsCoherent(w, op, key);
      }
    }
  }

  // ---------------------------------------------------------------------------------------------
  // The plain map the cache stands for.

  ghost function View<Key, Data>(w: World<Key, Data>): map<Key, Data> {
    map key | key in w.entries.Keys + w.source.Keys && (IsAvailable(w, key) || key in w.source)
      :: if IsAvailable(w, key) then w.entries[key].value else w.source[key]
  }

  datatype Effect<Key, Data> = Nothing | Put(key: Key, data: Data) | Drop(keys: set<Key>)

  ghost function Apply<Key, Data>(m: map<Key, Data>, effect: Effect<Key, Data>): map<Key, Data> {
    match effect
    case Nothing => m
    case Put(key, data) => m[key := data]
    case Drop(keys) => m - keys
  }

  /** The deletions a tick carries out: requested, willing source, and available once the retrievals
      of the same tick are done. A request for any other key is forgotten. */
  ghost function Dropped<Key, Data>(w: World<Key, Data>, o: Outcomes<Key>): set<Key> {
    set key | key in w.deleteQueue.data && key !in o.deleteFails
      && (IsAvailable(w, key) || (key in w.retrieveQueue.data && Loads(w, o, key)))
  }

  ghost function EffectOf<Key, Data>(w: World<Key, Data>, op: Op<Key, Data>): Effect<Key, Data> {
    match op
    case Create(key, data) => if key in w.entries then Nothing else Put(key, data)
    case Patch(key, data) => if IsAvailable(w, key) then Put(key, data) else Nothing
    case Tick(o) => Drop(Dropped(w, o))
    case _ => Nothing
  }

  ghost function Effects<Key, Data>(w: World<Key, Data>, ops: seq<Op<Key, Data>>): seq<Effect<Key, Data>>
    requires LegalRun(w, ops)
    decreases |ops|
  {
    if ops == [] then [] else [EffectOf(w, ops[0])] + Effects(Step(w, ops[0]), ops[1..])
  }

  ghost function ApplyAll<Key, Data>(m: map<Key, Data>, effects: seq<Effect<Key, Data>>): map<Key, Data>
    decreases |effects|
  {
    if effects == [] then m else ApplyAll(Apply(m, effects[0]), effects[1..])
  }

  lemma RetrieveKeepsView<Key(!new), Data>(w: World<Key, Data>, o: Outcomes<Key>)
    requires Inv(w)
    ensures View(ProcessRetrieve(w, o)) == View(w)
  {
  }

  lemma StoreKeepsView<Key(!new), Data>(w: World<Key, Data>, o: Outcomes<Key>)
    ensures View(ProcessStore(w, o)) == View(w)
  {
    var w' := ProcessStore(w, o);
    assert forall key :: IsAvailable(w', key) <==> IsAvailable(w, key);
  }

  lemma DeleteDropsFromView<Key(!new), Data>(w: World<Key, Data>, o: Outcomes<Key>)
    requires Flagged(w.deleteQueue)
    ensures View(ProcessDelete(w, o)) == View(w) - Gone(w, o, w.deleteQueue.data)
  {
    var w', gone := ProcessDelete(w, o), Gone(w, o, w.deleteQueue.data);
    assert forall key :: IsAvailable(w', key) <==> IsAvailable(w, key) && key !in gone;
  }

  lemma TickAvailable<Key(!new), Data>(w: World<Key, Data>, o: Outcomes<Key>, key: Key)
    requires Inv(w)
    ensures
      IsAvailable(ProcessStore(ProcessRetrieve(w, o), o), key)
      <==> IsAvailable(w, key) || (key in w.retrieveQueue.data && Loads(w, o, key))
  {
    var r := ProcessRetrieve(w, o);
    assert IsAvailable(ProcessStore(r, o), key) <==> IsAvailable(r, key);
  }

  lemma TickGone<Key(!new), Data>(w: World<Key, Data>, o: Outcomes<Key>)
    requires Inv(w)
    ensures
      var s := ProcessStore(ProcessRetrieve(w, o), o);
      s.deleteQueue == w.deleteQueue && Gone(s, o, s.deleteQueue.data) == Dropped(w, o)
  {
    var s := ProcessStore(ProcessRetrieve(w, o), o);
    forall key
      ensures key in Gone(s, o, s.deleteQueue.data) <==> key in Dropped(w, o)
    {
      TickAvailable(w, o, key);
    }
  }

  lemma TickDropsFromView<Key(!new), Data>(w: World<Key, Data>, o: Outcomes<Key>)
    requires Inv(w)
    ensures View(StorageModel.Tick(w, o)) == View(w) - Dropped(w, o)
  {
    var r := ProcessRetrieve(w, o);
    RetrieveKeepsView(w, o);
    StoreKeepsView(r, o);
    TickGone(w, o);
    DeleteDropsFromView(ProcessStore(r, o), o);
  }

  lemma CreateRefinesMap<Key(!new), Data>(w: World<Key, Data>, key: Key, data: Data)
    ensures View(StorageModel.Create(w, key, data)) == if key in w.entries then View(w) else View(w)[key := data]
  {
    var w' := StorageModel.Create(w, key, data);
    assert forall k | k != key :: IsAvailable(w', k) <==> IsAvailable(w, k);
  }

  lemma PatchRefinesMap<Key(!new), Data>(w: World<Key, Data>, key: Key, data: Data)
    requires key in w.entries
    ensures View(StorageModel.Patch(w, key, data)) == if IsAvailable(w, key) then View(w)[key := data] else View(w)
  {
    var w' := StorageModel.Patch(w, key, data);
    assert forall k :: IsAvailable(w', k) <==> IsAvailable(w, k);
  }

  lemma RequestKeepsView<Key(!new), Data>(w: World<Key, Data>, op: Op<Key, Data>)
    requires op.Get? || op.Delete? || op.Save? || op.Retry?
    requires Legal(w, op)
    ensures View(Step(w, op)) == View(w)
  {
    assert forall key :: IsAvailable(Step(w, op), key) <==> IsAvailable(w, key);
  }

  /** Every operation of the cache is an operation on the plain map. */
  lemma StepRefinesMap<Key(!new), Data>(w: World<Key, Data>, op: Op<Key, Data>)
    requires Inv(w) && Legal(w, op)
    ensures View(Step(w, op)) == Apply(View(w), EffectOf(w, op))
  {
    match op {
      case Create(key, data) => CreateRefinesMap(w, key, data);
      case Patch(key, data) => PatchRefinesMap(w, key, data);
      case Tick(o) => TickDropsFromView(w, o);
      case _ => RequestKeepsView(w, op);
    }
  }

  lemma {:induction false} RunKeepsInv<Key(!new), Data>(w: World<Key, Data>, ops: seq<Op<Key, Data>>)
    requires Inv(w) && LegalRun(w, ops)
    ensures Inv(Run(w, ops))
    decreases |ops|
  {
    if ops != [] {
      StepKeepsInv(w, ops[0]);
      RunKeepsInv(Step(w, ops[0]), ops[1..]);
    }
  }

  lemma {:induction false} RunRefinesMap<Key(!new), Data>(w: World<Key, Data>, ops: seq<Op<Key, Data>>)
    requires Inv(w) && LegalRun(w, ops)
    ensures View(Run(w, ops)) == ApplyAll(View(w), Effects(w, ops))
    decreases |ops|
  {
    if ops != [] {
      StepKeepsInv(w, ops[0]);
      StepRefinesMap(w, ops[0]);
      RunRefinesMap(Step(w, ops[0]), ops[1..]);
    }
  }

  /** Reads see the latest write: whatever the listeners do, an available value is the value the plain
      map holds after the same creations, patches and deletions. */
  lemma ReadsSeeTheMap<Key(!new), Data>(blank: Data, source: map<Key, Data>, ops: seq<Op<Key, Data>>, key: Key)
    requires LegalRun(Initial(blank, source), ops)
    requires IsAvailable(Run(Initial(blank, source), ops), key)
    ensures
      var m := ApplyAll(source, Effects(Initial(blank, source), ops));
      key in m && m[key] == Run(Initial(blank, source), ops).entries[key].value
  {
    assert View(Initial(blank, source)) == source;
    RunRefinesMap(Initial(blank, source), ops);
  }

  // ---------------------------------------------------------------------------------------------
  // Coherence with the data source.

  ghost predicate InSource<Key, Data>(w: World<Key, Data>, key: Key)
    requires key in w.entries
  {
    key in w.source && w.source[key] == w.entries[key].value
  }

  /** After a tick the source holds the value of a key that is still available exactly if it held it before,
      or the key was queued for a store and its store succeeded. */
  lemma StoredIff<Key(!new), Data>(w: World<Key, Data>, o: Outcomes<Key>, key: Key)
    requires Inv(w) && IsAvailable(w, key)
    ensures
      var w' := StorageModel.Tick(w, o);
      && (IsAvailable(w', key) <==> key !in Dropped(w, o))
      && (IsAvailable(w', key) ==>
            && w'.entries[key] == w.entries[key]
            && (InSource(w', key) <==> InSource(w, key) || (key in w.storeQueue.data && key !in o.storeFails)))
  {
    var r := ProcessRetrieve(w, o);
    var s := ProcessStore(r, o);
    assert r.entries[key] == w.entries[key] && s.entries[key] == w.entries[key];
  }

  /** An available value that the source does not hold and that nothing will store. */
  ghost predicate Stale<Key, Data>(w: World<Key, Data>, key: Key) {
    && IsAvailable(w, key) && !InSource(w, key)
    && key !in w.storeQueue.data && key !in w.deleteQueue.data
  }

  /** Nobody patches, saves or deletes the key. */
  ghost predicate LeftAlone<Key, Data>(ops: seq<Op<Key, Data>>, key: Key) {
    forall i | 0 <= i < |ops| :: ops[i].Patch? || ops[i].Save? || ops[i].Delete? ==> ops[i].key != key
  }

  lemma StepKeepsStale<Key(!new), Data>(w: World<Key, Data>, op: Op<Key, Data>, key: Key)
    requires Inv(w) && Legal(w, op) && Stale(w, key) && LeftAlone([op], key)
    ensures Stale(Step(w, op), key)
  {
    assert [op][0] == op;
    if op.Tick? {
      StoredIff(w, op.outcomes, key);
    }
  }

  lemma LeftAloneLater<Key, Data>(ops: seq<Op<Key, Data>>, key: Key)
    requires ops != [] && LeftAlone(ops, key)
    ensures LeftAlone([ops[0]], key) && LeftAlone(ops[1..], key)
  {
    assert forall i | 0 <= i < |ops[1..]| :: ops[1..][i] == ops[i + 1];
  }

  /** A stale value stays stale until somebody patches, saves or deletes it: no tick repairs it. */
  lemma {:induction false} StaleStays<Key(!new), Data>(w: World<Key, Data>, ops: seq<Op<Key, Data>>, key: Key)
    requires Inv(w) && LegalRun(w, ops) && Stale(w, key) && LeftAlone(ops, key)
    ensures Stale(Run(w, ops), key)
    decreases |ops|
  {
    if ops != [] {
      LeftAloneLater(ops, key);
      StepKeepsInv(w, ops[0]);
      StepKeepsStale(w, ops[0], key);
      StaleStays(Step(w, ops[0]), ops[1..], key);
    }
  }

  /** The result of a store is ignored: a value whose store fails stays out of the source until somebody
      patches, saves or deletes it. */
  lemma FailedStoreIsForgotten<Key(!new), Data>(
    w: World<Key, Data>, o: Outcomes<Key>, ops: seq<Op<Key, Data>>, key: Key)
    requires Inv(w) && IsAvailable(w, key) && !InSource(w, key)
    requires key in w.storeQueue.data && key in o.storeFails && key !in w.deleteQueue.data
    requires LegalRun(StorageModel.Tick(w, o), ops) && LeftAlone(ops, key)
    ensures Stale(Run(StorageModel.Tick(w, o), ops), key)
  {
    StoredIff(w, o, key);
    StepKeepsInv(w, Op<Key, Data>.Tick(o));
    StaleStays(StorageModel.Tick(w, o), ops, key);
  }

  ghost predicate StoresSucceed<Key, Data>(ops: seq<Op<Key, Data>>, key: Key) {
    forall i | 0 <= i < |ops| && ops[i].Tick? :: key !in ops[i].outcomes.storeFails
  }

  lemma {:induction false} NothingUnsaved<Key(!new), Data>(w: World<Key, Data>, ops: seq<Op<Key, Data>>, key: Key)
    requires LegalRun(w, ops) && StoresSucceed(ops, key) && key !in w.unsaved
    ensures key !in Run(w, ops).unsaved
    decreases |ops|
  {
    if ops != [] {
      assert key !in Step(w, ops[0]).unsaved;
      assert forall i | 0 <= i < |ops[1..]| :: ops[1..][i] == ops[i + 1];
      NothingUnsaved(Step(w, ops[0]), ops[1..], key);
    }
  }

  /** As long as no store of the key fails, its available value is in the source or queued for a store. */
  lemma CacheCoherence<Key(!new), Data>(blank: Data, source: map<Key, Data>, ops: seq<Op<Key, Data>>, key: Key)
    requires LegalRun(Initial(blank, source), ops) && StoresSucceed(ops, key)
    ensures
      var w := Run(Initial(blank, source), ops);
      IsAvailable(w, key) && key !in w.storeQueue.data ==> InSource(w, key)
  {
    RunKeepsInv(Initial(blank, source), ops);
    NothingUnsaved(Initial(blank, source), ops, key);
    assert Coherent(Run(Initial(blank, source), ops), key);
  }

  /** The hypothesis is needed: one failed store is enough. */
  lemma CoherenceNeedsStores(blank: int, key: int, data: int)
    ensures
      var o := Outcomes(0, {}, {key}, {});
      var ops := [Op<int, int>.Create(key, data), Op<int, int>.Tick(o)];
      var w := Run(Initial(blank, map[]), ops);
      IsAvailable(w, key) && key !in w.storeQueue.data && key !in w.source
  {
    var o := Outcomes(0, {}, {key}, {});
    var w0 := Initial<int, int>(blank, map[]);
    var create, tick := Op<int, int>.Create(key, data), Op<int, int>.Tick(o);
    var w1 := Step(w0, create);
    assert [create, tick][1..] == [tick] && [tick][1..] == [];
    assert Run(w1, [tick]) == Step(w1, tick);
    assert w1.storeQueue.data == {key};
    assert Run(w0, [create, tick]) == Step(w1, tick);
  }

  /** Termination leaves in the source the last value of every available entry whose store succeeded and
      whose deletion was not carried out, and touches no other key. */
  lemma TerminateLeaves<Key(!new), Data>(w: World<Key, Data>, o: Outcomes<Key>, key: Key)
    requires Inv(w)
    ensures
      var after := StorageModel.Terminate(w, o).source;
      if key in Dropped(w, o) then key !in after
      else if IsAvailable(w, key) && key !in o.storeFails then key in after && after[key] == w.entries[key].value
      else (key in after <==> key in w.source) && (key in after ==> after[key] == w.source[key])
  {
    var q := StoreAll(w);
    var r := ProcessRetrieve(q, o);
    var s := ProcessStore(r, o);
    assert IsAvailable(s, key) <==> IsAvailable(w, key) || (key in w.retrieveQueue.data && Loads(w, o, key));
    if IsAvailable(w, key) {
      assert key in AvailableKeys(w);
      assert key in q.storeQueue.data && q.storeQueue.dataFlag;
      assert r.entries[key] == w.entries[key];
    }
  }

  /** With a source that accepts every store, termination loses nothing. */
  lemma TerminateSavesTheMap<Key(!new), Data>(w: World<Key, Data>, o: Outcomes<Key>)
    requires Inv(w) && o.storeFails == {}
    ensures StorageModel.Terminate(w, o).source == View(w) - Dropped(w, o)
  {
    var after, m := StorageModel.Terminate(w, o).source, View(w) - Dropped(w, o);
    forall key
      ensures key in after <==> key in m
      ensures key in after ==> after[key] == m[key]
    {
      TerminateLeaves(w, o, key);
      assert Coherent(w, key);
    }
  }

  // ---------------------------------------------------------------------------------------------
  // Deletion is final, and so is every other way for an entry to fall dormant.

  lemma StepKeepsDormant<Key(!new), Data>(w: World<Key, Data>, op: Op<Key, Data>, key: Key)
    requires Inv(w) && Legal(w, op) && Dormant(w, key)
    ensures Dormant(Step(w, op), key)
    ensures key in Step(w, op).source ==> key in w.source
  {
    if op.Tick? {
      var r := ProcessRetrieve(w, op.outcomes);
      assert Dormant(r, key);
      var s := ProcessStore(r, op.outcomes);
      assert Dormant(s, key);
    }
  }

  lemma {:induction false} DormantForever<Key(!new), Data>(w: World<Key, Data>, ops: seq<Op<Key, Data>>, key: Key)
    requires Inv(w) && LegalRun(w, ops) && Dormant(w, key)
    ensures Dormant(Run(w, ops), key)
    ensures key in Run(w, ops).source ==> key in w.source
    decreases |ops|
  {
    if ops != [] {
      StepKeepsInv(w, ops[0]);
      StepKeepsDormant(w, ops[0], key);
      DormantForever(Step(w, ops[0]), ops[1..], key);
    }
  }

  /** A key whose deletion was carried out is never available and never stored again. */
  lemma DeletionIsFinal<Key(!new), Data>(w: World<Key, Data>, o: Outcomes<Key>, ops: seq<Op<Key, Data>>, key: Key)
    requires Inv(w) && key in Dropped(w, o) && LegalRun(StorageModel.Tick(w, o), ops)
    ensures
      var later := Run(StorageModel.Tick(w, o), ops);
      !IsAvailable(later, key) && key !in later.source && key !in View(later)
  {
    var r := ProcessRetrieve(w, o);
    var s := ProcessStore(r, o);
    RetrieveKeepsInv(w, o);
    StoreKeepsInv(r, o);
    assert IsAvailable(s, key);
    assert key in StorageModel.Tick(w, o).deleted;
    StepKeepsInv(w, Op<Key, Data>.Tick(o));
    DormantForever(StorageModel.Tick(w, o), ops, key);
  }

  /** Deleting a key that is not cached does not delete it: the tick leaves a blank entry behind, which
      hides the key for good although the source still holds it. */
  lemma DeletingUncachedKeyHidesIt<Key(!new), Data>(
    w: World<Key, Data>, o: Outcomes<Key>, ops: seq<Op<Key, Data>>, key: Key)
    requires Inv(w) && key !in w.entries && key in w.deleteQueue.data && key in w.source
    requires LegalRun(StorageModel.Tick(w, o), ops)
    ensures key in StorageModel.Tick(w, o).source
    ensures !IsAvailable(Run(StorageModel.Tick(w, o), ops), key)
  {
    var r := ProcessRetrieve(w, o);
    var s := ProcessStore(r, o);
    assert !IsAvailable(r, key) && !IsAvailable(s, key);
    assert key !in s.retrieveQueue.data && EntryAt(s, key).retrieveFailureCount == 0;
    StepKeepsInv(w, Op<Key, Data>.Tick(o));
    DormantForever(StorageModel.Tick(w, o), ops, key);
  }

  /** So does saving one. */
  lemma SavingUncachedKeyHidesIt<Key(!new), Data>(
    w: World<Key, Data>, o: Outcomes<Key>, ops: seq<Op<Key, Data>>, key: Key)
    requires Inv(w) && key !in w.entries && key in w.storeQueue.data
    requires LegalRun(StorageModel.Tick(w, o), ops)
    ensures (key in w.source <==> key in StorageModel.Tick(w, o).source) && key in StorageModel.Tick(w, o).entries
    ensures !IsAvailable(Run(StorageModel.Tick(w, o), ops), key)
  {
    var r := ProcessRetrieve(w, o);
    var s := ProcessStore(r, o);
    assert !IsAvailable(r, key) && !IsAvailable(s, key) && key in s.entries;
    assert key !in s.retrieveQueue.data && EntryAt(s, key).retrieveFailureCount == 0;
    StepKeepsInv(w, Op<Key, Data>.Tick(o));
    DormantForever(StorageModel.Tick(w, o), ops, key);
  }

  // ---------------------------------------------------------------------------------------------
  // Retrieval.

  /** The first request for a readable key is answered after one tick, with the source's value. */
  lemma FirstGetLoads<Key(!new), Data>(w: World<Key, Data>, o: Outcomes<Key>, key: Key)
    requires Inv(w) && key !in w.entries && key !in w.deleteQueue.data && Loads(w, o, key)
    ensures
      var w' := StorageModel.Tick(StorageModel.Get(w, key, true), o);
      IsAvailable(w', key) && w'.entries[key].value == w.source[key]
  {
    var g := StorageModel.Get(w, key, true);
    var r := ProcessRetrieve(g, o);
    assert IsAvailable(r, key) && r.entries[key].value == w.source[key];
    var s := ProcessStore(r, o);
    assert s.entries[key] == r.entries[key];
  }

  /** A look at a key requests a retrieval exactly if the key is unknown and the caller wants one. */
  lemma GetRequestsIff<Key, Data>(w: World<Key, Data>, key: Key, retrieve: bool)
    ensures
      var v := StorageModel.Get(w, key, retrieve);
      && v.retrieveQueue.data == (if key !in w.entries && retrieve then w.retrieveQueue.data + {key}
                                  else w.retrieveQueue.data)
      && key in v.entries && EntryAt(v, key) == EntryAt(w, key)
  {
  }

  /** So a first look without a retrieval makes the key unreadable for good, although the source may hold it. */
  lemma FirstPeekHidesKey<Key(!new), Data>(w: World<Key, Data>, ops: seq<Op<Key, Data>>, key: Key)
    requires Inv(w) && key !in w.entries && LegalRun(StorageModel.Get(w, key, false), ops)
    ensures !IsAvailable(Run(StorageModel.Get(w, key, false), ops), key)
    ensures StorageModel.Get(w, key, false).source == w.source
  {
    StepKeepsInv(w, Op<Key, Data>.Get(key, false));
    GetRequestsIff(w, key, false);
    assert Dormant(StorageModel.Get(w, key, false), key);
    DormantForever(StorageModel.Get(w, key, false), ops, key);
  }

  /** In every run a tick retrieves only keys that are not available, so no retrieval touches a cached value. */
  lemma RetrievalNeverClobbers<Key(!new), Data>(
    blank: Data, source: map<Key, Data>, ops: seq<Op<Key, Data>>, o: Outcomes<Key>, key: Key)
    requires LegalRun(Initial(blank, source), ops)
    ensures
      var w := Run(Initial(blank, source), ops);
      IsAvailable(w, key) ==> key !in w.retrieveQueue.data && ProcessRetrieve(w, o).entries[key] == w.entries[key]
  {
    RunKeepsInv(Initial(blank, source), ops);
  }

  lemma RetrievedView<Key(!new), Data>(w: World<Key, Data>, o: Outcomes<Key>, key: Key)
    requires Inv(w) && key in w.entries
    ensures
      var after := View(ProcessRetrieve(RequestRetrieve(w, key), o));
      after == if IsAvailable(w, key) && Loads(w, o, key) then View(w)[key := w.source[key]] else View(w)
  {
  }

  /** The retry makes the key available just in time for a deletion that waits for it. */
  ghost predicate RetryDeletes<Key, Data>(w: World<Key, Data>, o: Outcomes<Key>, key: Key) {
    && !IsAvailable(w, key) && key !in w.retrieveQueue.data && Loads(w, o, key)
    && key in w.deleteQueue.data && key !in o.deleteFails
  }

  lemma RetriedAvailable<Key(!new), Data>(w: World<Key, Data>, o: Outcomes<Key>, key: Key, k: Key)
    requires Inv(w) && key in w.entries
    ensures
      IsAvailable(ProcessStore(ProcessRetrieve(RequestRetrieve(w, key), o), o), k)
      <==> IsAvailable(w, k) || (k in w.retrieveQueue.data + {key} && Loads(w, o, k))
  {
    var r := ProcessRetrieve(RequestRetrieve(w, key), o);
    assert IsAvailable(ProcessStore(r, o), k) <==> IsAvailable(r, k);
  }

  lemma RetriedGone<Key(!new), Data>(w: World<Key, Data>, o: Outcomes<Key>, key: Key)
    requires Inv(w) && key in w.entries
    ensures
      var s := ProcessStore(ProcessRetrieve(RequestRetrieve(w, key), o), o);
      && s.deleteQueue == w.deleteQueue
      && Gone(s, o, s.deleteQueue.data) == Dropped(w, o) + if RetryDeletes(w, o, key) then {key} else {}
  {
    var s := ProcessStore(ProcessRetrieve(RequestRetrieve(w, key), o), o);
    var dropped := Dropped(w, o) + if RetryDeletes(w, o, key) then {key} else {};
    forall k
      ensures k in Gone(s, o, s.deleteQueue.data) <==> k in dropped
    {
      RetriedAvailable(w, o, key, k);
    }
  }

  ghost function RetrievedMap<Key, Data>(w: World<Key, Data>, o: Outcomes<Key>, key: Key): map<Key, Data> {
    if IsAvailable(w, key) && Loads(w, o, key) then View(w)[key := w.source[key]] else View(w)
  }

  lemma RetriedTickView<Key(!new), Data>(w: World<Key, Data>, o: Outcomes<Key>, key: Key)
    requires Inv(w) && key in w.entries
    ensures
      View(StorageModel.Tick(RequestRetrieve(w, key), o))
      == RetrievedMap(w, o, key) - (Dropped(w, o) + if RetryDeletes(w, o, key) then {key} else {})
  {
    var r := ProcessRetrieve(RequestRetrieve(w, key), o);
    RetrievedView(w, o, key);
    StoreKeepsView(r, o);
    RetriedGone(w, o, key);
    DeleteDropsFromView(ProcessStore(r, o), o);
  }

  lemma SameAfterDrop<Key, Data>(m: map<Key, Data>, n: map<Key, Data>, key: Key, d: set<Key>, extra: bool)
    requires key in m || !extra
    requires n == m || (key in m && key in n && n == m[key := n[key]])
    requires extra ==> key !in d
    ensures n - (d + if extra then {key} else {}) == m - d <==> !extra && (n == m || key in d)
  {
    var e := d + if extra then {key} else {};
    if extra {
      assert key in m - d && key !in n - e;
    } else if n != m && key !in d {
      assert key in m - d && key in n - e && (m - d)[key] == m[key] && (n - e)[key] == n[key];
      assert m[key] != n[key];
    } else {
      assert n - e == m - d;
    }
  }

  /** Why IsDamaged guards the retry: a retried retrieval overwrites the cache. A tick with the retry comes to
      the same map as the tick without it exactly if it does not make the key deletable, and the key is not
      available, not readable, deleted anyway or already equal to the source. */
  lemma RetryKeepsMapIff<Key(!new), Data>(w: World<Key, Data>, o: Outcomes<Key>, key: Key)
    requires Inv(w) && key in w.entries
    ensures
      View(StorageModel.Tick(RequestRetrieve(w, key), o)) == View(StorageModel.Tick(w, o))
      <==>
        && !RetryDeletes(w, o, key)
        && (!IsAvailable(w, key) || !Loads(w, o, key) || key in Dropped(w, o) || w.source[key] == w.entries[key].value)
  {
    var m, n := View(w), RetrievedMap(w, o, key);
    RetriedTickView(w, o, key);
    TickDropsFromView(w, o);
    SameAfterDrop(m, n, key, Dropped(w, o), RetryDeletes(w, o, key));
    assert n == m <==> !IsAvailable(w, key) || !Loads(w, o, key) || w.source[key] == w.entries[key].value by {
      if IsAvailable(w, key) && Loads(w, o, key) {
        assert m[key] == w.entries[key].value && n[key] == w.source[key];
      }
    }
  }
}
