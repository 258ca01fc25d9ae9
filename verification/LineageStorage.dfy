/**
 What LineageModel says about looking for a horse, ticking and retrying is what the cache of StorageModel
 does: the horses are its plain map, the resident ones its available entries.
 */
module LineageStorage {
  import R = DataStorageRuns
  import opened LineageModel
  import S = StorageModel

  type Store = S.World<Uid, Horse>

  ghost function Abstract(s: Store): World {
    World(R.View(s), S.AvailableKeys(s), s.entries.Keys, s.retrieveQueue.data)
  }

  lemma AvailableIsResident(s: Store, uid: Uid)
    requires uid != INVALID_UID
    ensures IsResident(Abstract(s), uid) <==> S.IsAvailable(s, uid)
  {
  }

  /** Getting a record is looking for the horse. */
  lemma GetIsLook(s: Store, uid: Uid)
    requires uid != INVALID_UID
    ensures Abstract(S.Get(s, uid, true)) == Look(Abstract(s), {uid})
    ensures IsResident(Abstract(S.Get(s, uid, true)), uid) <==> S.IsAvailable(S.Get(s, uid, true), uid)
  {
    var g := S.Get(s, uid, true);
    AvailableIsResident(g, uid);
    assert S.AvailableKeys(g) == S.AvailableKeys(s);
    assert R.View(g) == R.View(s);
    if uid in s.entries {
      assert News(Abstract(s), {uid}) == {};
    } else {
      assert News(Abstract(s), {uid}) == {uid};
    }
  }

  /** Patching a record is changing the horse. */
  lemma PatchIsChange(s: Store, uid: Uid, h: Horse)
    requires S.IsAvailable(s, uid)
    ensures Abstract(S.Patch(s, uid, h)) == Abstract(s).(horses := Abstract(s).horses[uid := h])
  {
    var p := S.Patch(s, uid, h);
    R.PatchRefinesMap(s, uid, h);
    assert S.AvailableKeys(p) == S.AvailableKeys(s);
    assert p.entries.Keys == s.entries.Keys;
  }

  /** Retrying the retrieval of an unavailable entry is retrying the read. */
  lemma RetryIsRetry(s: Store, uid: Uid)
    requires uid in s.entries && !S.IsAvailable(s, uid)
    ensures Abstract(S.RequestRetrieve(s, uid)) == Retry(Abstract(s), {uid})
  {
    var r := S.RequestRetrieve(s, uid);
    assert S.AvailableKeys(r) == S.AvailableKeys(s);
    assert R.View(r) == R.View(s);
    assert (set u | u in {uid} && u in Abstract(s).seen && u !in Abstract(s).resident) == {uid};
  }

  lemma NoDeletion(s: Store, o: S.Outcomes<Uid>)
    requires s.deleteQueue.data == {}
    ensures S.ProcessDelete(s, o).entries == s.entries && S.ProcessDelete(s, o).retrieveQueue == s.retrieveQueue
  {
    assert S.Gone(s, o, {}) == {};
  }

  lemma TickKeys(s: Store, o: S.Outcomes<Uid>)
    requires R.Inv(s) && s.deleteQueue.data == {} && s.storeQueue.data <= s.entries.Keys
    ensures
      var t := S.Tick(s, o);
      && t.entries == S.ProcessStore(S.ProcessRetrieve(s, o), o).entries
      && t.entries.Keys == s.entries.Keys && t.retrieveQueue.data == {}
  {
    var r := S.ProcessRetrieve(s, o);
    assert r.entries.Keys == s.entries.Keys && r.retrieveQueue.data == {};
    NoDeletion(S.ProcessStore(r, o), o);
  }

  lemma TickResident(s: Store, o: S.Outcomes<Uid>)
    requires R.Inv(s) && s.deleteQueue.data == {} && s.storeQueue.data <= s.entries.Keys
    ensures S.AvailableKeys(S.Tick(s, o)) == Tick(Abstract(s), o.readFails).resident
  {
    var t, resident := S.Tick(s, o), Tick(Abstract(s), o.readFails).resident;
    TickKeys(s, o);
    forall uid
      ensures S.IsAvailable(t, uid) <==> uid in resident
    {
      R.TickAvailable(s, o, uid);
    }
  }

  /** A tick of the cache with nothing to delete is a tick of the reads. */
  lemma TickIsTick(s: Store, o: S.Outcomes<Uid>)
    requires R.Inv(s) && s.deleteQueue.data == {} && s.storeQueue.data <= s.entries.Keys
    ensures Abstract(S.Tick(s, o)) == Tick(Abstract(s), o.readFails)
  {
    TickResident(s, o);
    TickKeys(s, o);
    R.TickDropsFromView(s, o);
    assert R.Dropped(s, o) == {};
  }
}
