/**
 The write-back cache of include/libserver/data/DataStorage.hpp.

 Every operation is given as a function on a value of type World: the cache, its three request queues,
 and the data source behind the listeners. The class in DataStorage.dfy updates its fields in place and
 is proved to do what these functions say; DataStorageRuns.dfy proves what the functions mean.
 */
module StorageModel {
  // The failure counter is a 32-bit unsigned integer.
  const COUNTER_MODULUS: nat := 0x1_0000_0000

  datatype Entry<Data> = Entry(
    value: Data,
    available: bool,
    retrieveFailureCount: nat,
    firstRetrieveFailure: int)

  datatype Queue<Key> = Queue(data: set<Key>, dataFlag: bool)

  /** What the data source does during one tick: the time, and the keys whose listener fails. */
  datatype Outcomes<Key> = Outcomes(
    now: int,
    readFails: set<Key>,
    storeFails: set<Key>,
    deleteFails: set<Key>)

  /** The cache and its data source. `unsaved` and `deleted` only record history: the keys whose
      latest store failed, and the keys whose deletion the source has carried out. */
  datatype World<Key, Data> = World(
    blank: Data, // the default-constructed value of a new entry
    entries: map<Key, Entry<Data>>,
    retrieveQueue: Queue<Key>,
    storeQueue: Queue<Key>,
    deleteQueue: Queue<Key>,
    source: map<Key, Data>,
    unsaved: set<Key>,
    deleted: set<Key>)

  // ---------------------------------------------------------------------------------------------
  // The operations, as functions.

  function NewEntry<Data>(value: Data, available: bool): Entry<Data> {
    Entry(value, available, 0, 0)
  }

  function Requested<Key>(queue: Queue<Key>, key: Key): Queue<Key> {
    Queue(queue.data + {key}, true)
  }

  ghost predicate IsAvailable<Key, Data>(w: World<Key, Data>, key: Key) {
    key in w.entries && w.entries[key].available
  }

  ghost predicate IsPending<Key, Data>(w: World<Key, Data>, key: Key) {
    key in w.entries && !w.entries[key].available
  }

  ghost function EntryAt<Key, Data>(w: World<Key, Data>, key: Key): Entry<Data> {
    if key in w.entries then w.entries[key] else NewEntry(w.blank, false)
  }

  /** The entries once `_entries[key]` has been evaluated for every one of the keys. */
  ghost function Touched<Key, Data>(w: World<Key, Data>, keys: set<Key>): map<Key, Entry<Data>> {
    map key | key in w.entries.Keys + keys :: EntryAt(w, key)
  }

  ghost function Create<Key, Data>(w: World<Key, Data>, key: Key, data: Data): World<Key, Data> {
    if key in w.entries then w
    else w.(entries := w.entries[key := NewEntry(data, true)], storeQueue := Requested(w.storeQueue, key))
  }

  ghost function Get<Key, Data>(w: World<Key, Data>, key: Key, retrieve: bool): World<Key, Data> {
    if key in w.entries then w
    else w.(
      entries := w.entries[key := NewEntry(w.blank, false)],
      retrieveQueue := if retrieve then Requested(w.retrieveQueue, key) else w.retrieveQueue)
  }

  ghost function GetAll<Key, Data>(w: World<Key, Data>, keys: seq<Key>): World<Key, Data> {
    if keys == [] then w else Get(GetAll(w, keys[..|keys| - 1]), keys[|keys| - 1], true)
  }

  /** A patch through a record handle: the value is replaced and a store is requested. */
  ghost function Patch<Key, Data>(w: World<Key, Data>, key: Key, data: Data): World<Key, Data>
    requires key in w.entries
  {
    w.(entries := w.entries[key := w.entries[key].(value := data)], storeQueue := Requested(w.storeQueue, key))
  }

  ghost function RequestStore<Key, Data>(w: World<Key, Data>, key: Key): World<Key, Data> {
    w.(storeQueue := Requested(w.storeQueue, key))
  }

  ghost function RequestDelete<Key, Data>(w: World<Key, Data>, key: Key): World<Key, Data> {
    w.(deleteQueue := Requested(w.deleteQueue, key))
  }

  ghost function RequestRetrieve<Key, Data>(w: World<Key, Data>, key: Key): World<Key, Data> {
    w.(retrieveQueue := Requested(w.retrieveQueue, key))
  }

  // Processing a queue handles its keys one by one, in no particular order. `RetrieveKeys`, `StoreKeys`
  // and `DeleteKeys` say what handling a set of keys does.

  ghost predicate Loads<Key, Data>(w: World<Key, Data>, o: Outcomes<Key>, key: Key) {
    key in w.source && key !in o.readFails
  }

  ghost function Loaded<Key, Data>(w: World<Key, Data>, o: Outcomes<Key>, keys: set<Key>): set<Key> {
    set key | key in keys && Loads(w, o, key)
  }

  ghost function Retrieved<Key, Data>(w: World<Key, Data>, o: Outcomes<Key>, key: Key): Entry<Data> {
    var e := EntryAt(w, key);
    if Loads(w, o, key) then e.(value := w.source[key], available := true, retrieveFailureCount := 0)
    else e.(
      retrieveFailureCount := (e.retrieveFailureCount + 1) % COUNTER_MODULUS,
      firstRetrieveFailure := if e.retrieveFailureCount == 0 then o.now else e.firstRetrieveFailure)
  }

  ghost function RetrieveKeys<Key, Data>(w: World<Key, Data>, o: Outcomes<Key>, keys: set<Key>): World<Key, Data> {
    w.(
      entries := map key | key in w.entries.Keys + keys :: if key in keys then Retrieved(w, o, key) else w.entries[key],
      unsaved := w.unsaved - Loaded(w, o, keys))
  }

  ghost function ProcessRetrieve<Key, Data>(w: World<Key, Data>, o: Outcomes<Key>): World<Key, Data> {
    if !w.retrieveQueue.dataFlag then w
    else RetrieveKeys(w, o, w.retrieveQueue.data).(retrieveQueue := Queue({}, false))
  }

  ghost function Saved<Key, Data>(w: World<Key, Data>, o: Outcomes<Key>, keys: set<Key>): set<Key> {
    set key | key in keys && IsAvailable(w, key) && key !in o.storeFails
  }

  ghost function Lost<Key, Data>(w: World<Key, Data>, o: Outcomes<Key>, keys: set<Key>): set<Key> {
    set key | key in keys && IsAvailable(w, key) && key in o.storeFails
  }

  ghost function StoredSource<Key, Data>(w: World<Key, Data>, o: Outcomes<Key>, keys: set<Key>): map<Key, Data> {
    map key | key in w.source.Keys + Saved(w, o, keys) ::
      if key in Saved(w, o, keys) then w.entries[key].value else w.source[key]
  }

  ghost function StoreKeys<Key, Data>(w: World<Key, Data>, o: Outcomes<Key>, keys: set<Key>): World<Key, Data> {
    w.(
      entries := Touched(w, keys),
      source := StoredSource(w, o, keys),
      unsaved := w.unsaved - Saved(w, o, keys) + Lost(w, o, keys))
  }

  ghost function ProcessStore<Key, Data>(w: World<Key, Data>, o: Outcomes<Key>): World<Key, Data> {
    if !w.storeQueue.dataFlag then w
    else StoreKeys(w, o, w.storeQueue.data).(storeQueue := Queue({}, false))
  }

  ghost function Gone<Key, Data>(w: World<Key, Data>, o: Outcomes<Key>, keys: set<Key>): set<Key> {
    set key | key in keys && IsAvailable(w, key) && key !in o.deleteFails
  }

  ghost function DeleteKeys<Key, Data>(w: World<Key, Data>, o: Outcomes<Key>, keys: set<Key>): World<Key, Data> {
    w.(
      entries := map key | key in w.entries.Keys + keys ::
        if key in Gone(w, o, keys) then w.entries[key].(available := false) else EntryAt(w, key),
      source := w.source - Gone(w, o, keys),
      deleted := w.deleted + Gone(w, o, keys))
  }

  ghost function ProcessDelete<Key, Data>(w: World<Key, Data>, o: Outcomes<Key>): World<Key, Data> {
    if !w.deleteQueue.dataFlag then w
    else DeleteKeys(w, o, w.deleteQueue.data).(deleteQueue := Queue({}, false))
  }

  ghost function Tick<Key, Data>(w: World<Key, Data>, o: Outcomes<Key>): World<Key, Data> {
    ProcessDelete(ProcessStore(ProcessRetrieve(w, o), o), o)
  }

  ghost function AvailableKeys<Key, Data>(w: World<Key, Data>): set<Key> {
    set key | key in w.entries && IsAvailable(w, key)
  }

  /** The world after a store has been requested for every available entry. */
  ghost function StoreAll<Key, Data>(w: World<Key, Data>): World<Key, Data> {
    if AvailableKeys(w) == {} then w
    else w.(storeQueue := Queue(w.storeQueue.data + AvailableKeys(w), true))
  }

  ghost function Terminate<Key, Data>(w: World<Key, Data>, o: Outcomes<Key>): World<Key, Data> {
    Tick(StoreAll(w), o).(entries := map[])
  }

  // ---------------------------------------------------------------------------------------------
  // The order in which a queue is drained does not matter.

  lemma RetrieveKeepsQueue<Key, Data>(w: World<Key, Data>, o: Outcomes<Key>, keys: set<Key>, queue: Queue<Key>)
    ensures RetrieveKeys(w.(retrieveQueue := queue), o, keys) == RetrieveKeys(w, o, keys).(retrieveQueue := queue)
  {
    var changed, kept := RetrieveKeys(w.(retrieveQueue := queue), o, keys), RetrieveKeys(w, o, keys);
    assert changed.entries == kept.entries;
    assert changed.unsaved == kept.unsaved;
  }

  lemma RetrieveOneMore<Key, Data>(w: World<Key, Data>, o: Outcomes<Key>, done: set<Key>, key: Key)
    requires key !in done
    ensures RetrieveKeys(RetrieveKeys(w, o, done), o, {key}) == RetrieveKeys(w, o, done + {key})
  {
    var one, all := RetrieveKeys(RetrieveKeys(w, o, done), o, {key}), RetrieveKeys(w, o, done + {key});
    assert one.entries == all.entries;
    assert one.unsaved == all.unsaved;
  }

  lemma StoreKeepsQueue<Key, Data>(w: World<Key, Data>, o: Outcomes<Key>, keys: set<Key>, queue: Queue<Key>)
    ensures StoreKeys(w.(storeQueue := queue), o, keys) == StoreKeys(w, o, keys).(storeQueue := queue)
  {
    var changed, kept := StoreKeys(w.(storeQueue := queue), o, keys), StoreKeys(w, o, keys);
    assert changed.entries == kept.entries;
    assert changed.source == kept.source;
    assert changed.unsaved == kept.unsaved;
  }

  lemma StoredSourceOneMore<Key, Data>(w: World<Key, Data>, o: Outcomes<Key>, done: set<Key>, key: Key)
    requires key !in done
    ensures StoredSource(StoreKeys(w, o, done), o, {key}) == StoredSource(w, o, done + {key})
  {
    var w' := StoreKeys(w, o, done);
    assert Saved(w', o, {key}) == Saved(w, o, {key});
    assert Saved(w, o, done + {key}) == Saved(w, o, done) + Saved(w, o, {key});
  }

  lemma UnsavedOneMore<Key, Data>(w: World<Key, Data>, o: Outcomes<Key>, done: set<Key>, key: Key)
    requires key !in done
    ensures StoreKeys(StoreKeys(w, o, done), o, {key}).unsaved == StoreKeys(w, o, done + {key}).unsaved
  {
    var w' := StoreKeys(w, o, done);
    assert Saved(w', o, {key}) == Saved(w, o, {key}) && Lost(w', o, {key}) == Lost(w, o, {key});
    assert Saved(w, o, done + {key}) == Saved(w, o, done) + Saved(w, o, {key});
    assert Lost(w, o, done + {key}) == Lost(w, o, done) + Lost(w, o, {key});
  }

  lemma StoreOneMore<Key, Data>(w: World<Key, Data>, o: Outcomes<Key>, done: set<Key>, key: Key)
    requires key !in done
    ensures StoreKeys(StoreKeys(w, o, done), o, {key}) == StoreKeys(w, o, done + {key})
  {
    StoredSourceOneMore(w, o, done, key);
    UnsavedOneMore(w, o, done, key);
    assert Touched(StoreKeys(w, o, done), {key}) == Touched(w, done + {key});
  }

  lemma DeleteKeepsQueue<Key, Data>(w: World<Key, Data>, o: Outcomes<Key>, keys: set<Key>, queue: Queue<Key>)
    ensures DeleteKeys(w.(deleteQueue := queue), o, keys) == DeleteKeys(w, o, keys).(deleteQueue := queue)
  {
    var changed, kept := DeleteKeys(w.(deleteQueue := queue), o, keys), DeleteKeys(w, o, keys);
    assert changed.entries == kept.entries;
    assert changed.source == kept.source;
    assert changed.deleted == kept.deleted;
  }

  lemma DeleteOneMore<Key, Data>(w: World<Key, Data>, o: Outcomes<Key>, done: set<Key>, key: Key)
    requires key !in done
    ensures DeleteKeys(DeleteKeys(w, o, done), o, {key}) == DeleteKeys(w, o, done + {key})
  {
    var one, all := DeleteKeys(DeleteKeys(w, o, done), o, {key}), DeleteKeys(w, o, done + {key});
    var w' := DeleteKeys(w, o, done);
    assert Gone(w', o, {key}) == Gone(w, o, {key});
    assert Gone(w, o, done + {key}) == Gone(w, o, done) + Gone(w, o, {key});
    assert one.entries == all.entries;
    assert one.source == all.source;
    assert one.deleted == all.deleted;
  }
}
