/** The cache class of include/libserver/data/DataStorage.hpp, proved against StorageModel. */
module DataStorage {
  import opened Wrappers
  import opened StorageModel
  import Model = StorageModel

  class Storage<Key(==,!new), Data(==)> {
    const blank: Data
    var entries: map<Key, Entry<Data>>
    var retrieveQueue: Queue<Key>
    var storeQueue: Queue<Key>
    var deleteQueue: Queue<Key>
    // The data source, as the three listeners see it.
    var source: map<Key, Data>
    ghost var unsaved: set<Key>
    ghost var deleted: set<Key>

    ghost function Now(): World<Key, Data>
      reads this
    {
      World(blank, entries, retrieveQueue, storeQueue, deleteQueue, source, unsaved, deleted)
    }

    constructor (blank: Data, source: map<Key, Data>)
      ensures Now() == World(blank, map[], Queue({}, false), Queue({}, false), Queue({}, false), source, {}, {})
    {
      this.blank, this.source := blank, source;
      entries := map[];
      retrieveQueue, storeQueue, deleteQueue := Queue({}, false), Queue({}, false), Queue({}, false);
      unsaved, deleted := {}, {};
    }

    method GetRetrieveFailureCount(key: Key) returns (count: nat)
      ensures count == EntryAt(Now(), key).retrieveFailureCount
    {
      count := if key in entries then entries[key].retrieveFailureCount else 0;
    }

    method HasRetrieveFailedFor(key: Key, duration: int, now: int) returns (failed: bool)
      ensures failed <==>
        key in entries && entries[key].retrieveFailureCount != 0
        && now - entries[key].firstRetrieveFailure >= duration
    {
      if key !in entries || entries[key].retrieveFailureCount == 0 {
        return false;
      }
      failed := now - entries[key].firstRetrieveFailure >= duration;
    }

    method RetryRetrieve(key: Key)
      modifies this
      ensures Now() == RequestRetrieve(old(Now()), key)
    {
      retrieveQueue := Queue(retrieveQueue.data + {key}, true);
    }

    /** Fails, as the source does by an exception, when the entry already exists. */
    method Create(key: Key, data: Data) returns (created: bool)
      modifies this
      ensures Now() == Model.Create(old(Now()), key, data)
      ensures created <==> key !in old(entries)
    {
      created := key !in entries;
      if created {
        entries := entries[key := Entry(data, true, 0, 0)];
        Save(key);
      }
    }

    /** The record handed out refers to the entry; `record` is its value at this moment. */
    method GetOrCreate(key: Key, data: Data) returns (record: Data)
      modifies this
      ensures Now() == Model.Create(old(Now()), key, data)
      ensures record == EntryAt(Now(), key).value
    {
      if key in entries {
        return entries[key].value;
      }
      entries := entries[key := Entry(data, true, 0, 0)];
      Save(key);
      record := data;
    }

    method Get(key: Key, retrieve: bool) returns (record: Option<Data>)
      modifies this
      ensures Now() == Model.Get(old(Now()), key, retrieve)
      ensures record == if IsAvailable(old(Now()), key) then Some(old(entries)[key].value) else None
    {
      if key !in entries {
        entries := entries[key := Entry(blank, false, 0, 0)];
        if retrieve {
          RetryRetrieve(key);
        }
        return None;
      }
      record := if entries[key].available then Some(entries[key].value) else None;
    }

    /** Every key is visited, so that one call requests everything that is missing. */
    method GetAll(keys: seq<Key>) returns (records: Option<seq<Data>>)
      modifies this
      ensures Now() == Model.GetAll(old(Now()), keys)
      ensures records.Some? <==> forall key | key in keys :: IsAvailable(old(Now()), key)
      ensures records.Some? ==>
        (&& |records.value| == |keys|
         && forall i | 0 <= i < |keys| :: records.value[i] == EntryAt(old(Now()), keys[i]).value)
    {
      var isComplete, found := true, [];
      for i := 0 to |keys|
        invariant Now() == Model.GetAll(old(Now()), keys[..i])
        invariant isComplete <==> forall j | 0 <= j < i :: IsAvailable(old(Now()), keys[j])
        invariant isComplete ==> |found| == i && forall j | 0 <= j < i :: found[j] == old(entries)[keys[j]].value
        invariant forall key | key in old(entries) :: key in entries && entries[key] == old(entries)[key]
        invariant forall key | key in entries && key !in old(entries) :: !entries[key].available
      {
        assert keys[..i + 1][..|keys[..i + 1]| - 1] == keys[..i];
        var record := Get(keys[i], true);
        if record.Some? {
          found := found + [record.value];
        } else {
          isComplete := false;
        }
      }
      assert keys[..|keys|] == keys;
      records := if isComplete then Some(found) else None;
    }

    /** `Record::Mutable` on a handle of the entry, then its patch listener. */
    method Patch(key: Key, data: Data)
      requires key in entries
      modifies this
      ensures Now() == Model.Patch(old(Now()), key, data)
    {
      entries := entries[key := entries[key].(value := data)];
      Save(key);
    }

    method Delete(key: Key)
      modifies this
      ensures Now() == RequestDelete(old(Now()), key)
    {
      deleteQueue := Queue(deleteQueue.data + {key}, true);
    }

    method Save(key: Key)
      modifies this
      ensures Now() == RequestStore(old(Now()), key)
    {
      storeQueue := Queue(storeQueue.data + {key}, true);
    }

    method RetrieveEntry(key: Key, o: Outcomes<Key>)
      modifies this
      ensures Now() == RetrieveKeys(old(Now()), o, {key})
    {
      if key !in entries {
        entries := entries[key := Entry(blank, false, 0, 0)];
      }
      if key in source && key !in o.readFails {
        entries := entries[key := entries[key].(value := source[key], available := true, retrieveFailureCount := 0)];
        unsaved := unsaved - {key};
      } else {
        var failures := entries[key].retrieveFailureCount;
        entries := entries[key := entries[key].(retrieveFailureCount := (failures + 1) % COUNTER_MODULUS)];
        if failures == 0 {
          entries := entries[key := entries[key].(firstRetrieveFailure := o.now)];
        }
      }
      assert entries == RetrieveKeys(old(Now()), o, {key}).entries;
    }

    method ProcessRetrieveQueue(o: Outcomes<Key>)
      modifies this
      ensures Now() == ProcessRetrieve(old(Now()), o)
    {
      var flagged := retrieveQueue.dataFlag;
      retrieveQueue := retrieveQueue.(dataFlag := false);
      if !flagged {
        return;
      }
      ghost var was, done := Now(), {};
      var todo := retrieveQueue.data;
      assert Now() == RetrieveKeys(was, o, {});
      while todo != {}
        invariant done + todo == was.retrieveQueue.data && done !! todo
        invariant Now() == RetrieveKeys(was, o, done)
      {
        var key :| key in todo;
        RetrieveEntry(key, o);
        RetrieveOneMore(was, o, done, key);
        todo, done := todo - {key}, done + {key};
      }
      retrieveQueue := retrieveQueue.(data := {});
      RetrieveKeepsQueue(old(Now()), o, done, was.retrieveQueue);
    }

    method StoreEntry(key: Key, o: Outcomes<Key>)
      modifies this
      ensures Now() == StoreKeys(old(Now()), o, {key})
    {
      if key !in entries {
        entries := entries[key := Entry(blank, false, 0, 0)];
      }
      if entries[key].available {
        if key !in o.storeFails {
          source := source[key := entries[key].value];
          unsaved := unsaved - {key};
        } else {
          unsaved := unsaved + {key};
        }
      }
      assert entries == StoreKeys(old(Now()), o, {key}).entries;
      assert source == StoreKeys(old(Now()), o, {key}).source;
    }

    method ProcessStoreQueue(o: Outcomes<Key>)
      modifies this
      ensures Now() == ProcessStore(old(Now()), o)
    {
      var flagged := storeQueue.dataFlag;
      storeQueue := storeQueue.(dataFlag := false);
      if !flagged {
        return;
      }
      ghost var was, done := Now(), {};
      var todo := storeQueue.data;
      assert Now() == StoreKeys(was, o, {});
      while todo != {}
        invariant done + todo == was.storeQueue.data && done !! todo
        invariant Now() == StoreKeys(was, o, done)
      {
        var key :| key in todo;
        StoreEntry(key, o);
        StoreOneMore(was, o, done, key);
        todo, done := todo - {key}, done + {key};
      }
      storeQueue := storeQueue.(data := {});
      StoreKeepsQueue(old(Now()), o, done, was.storeQueue);
    }

    method DeleteEntry(key: Key, o: Outcomes<Key>)
      modifies this
      ensures Now() == DeleteKeys(old(Now()), o, {key})
    {
      if key !in entries {
        entries := entries[key := Entry(blank, false, 0, 0)];
      }
      if entries[key].available && key !in o.deleteFails {
        source := source - {key};
        entries := entries[key := entries[key].(available := false)];
        deleted := deleted + {key};
      }
      assert entries == DeleteKeys(old(Now()), o, {key}).entries;
    }

    method ProcessDeleteQueue(o: Outcomes<Key>)
      modifies this
      ensures Now() == ProcessDelete(old(Now()), o)
    {
      var flagged := deleteQueue.dataFlag;
      deleteQueue := deleteQueue.(dataFlag := false);
      if !flagged {
        return;
      }
      ghost var was, done := Now(), {};
      var todo := deleteQueue.data;
      assert Now() == DeleteKeys(was, o, {});
      while todo != {}
        invariant done + todo == was.deleteQueue.data && done !! todo
        invariant Now() == DeleteKeys(was, o, done)
      {
        var key :| key in todo;
        DeleteEntry(key, o);
        DeleteOneMore(was, o, done, key);
        todo, done := todo - {key}, done + {key};
      }
      deleteQueue := deleteQueue.(data := {});
      DeleteKeepsQueue(old(Now()), o, done, was.deleteQueue);
    }

    method Tick(o: Outcomes<Key>)
      modifies this
      ensures Now() == Model.Tick(old(Now()), o)
    {
      ProcessRetrieveQueue(o);
      ProcessStoreQueue(o);
      ProcessDeleteQueue(o);
    }

    method Terminate(o: Outcomes<Key>)
      modifies this
      ensures Now() == Model.Terminate(old(Now()), o)
    {
      ghost var was := old(Now());
      var todo := entries.Keys;
      while todo != {}
        invariant todo <= was.entries.Keys
        invariant Now() == was.(storeQueue := storeQueue)
        invariant forall key :: key in storeQueue.data <==>
          key in was.storeQueue.data || (key !in todo && IsAvailable(was, key))
        invariant storeQueue.dataFlag <==>
          was.storeQueue.dataFlag || exists key :: key !in todo && IsAvailable(was, key)
      {
        var key :| key in todo;
        if entries[key].available {
          Save(key);
        }
        todo := todo - {key};
      }
      assert storeQueue.data == StoreAll(was).storeQueue.data;
      assert Now() == StoreAll(was);
      Tick(o);
      entries := map[];
    }
  }
}
