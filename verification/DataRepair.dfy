/** The cleanser of src/libserver/data/DataRepair.cpp, proved against DataRepairModel. */
module DataRepair {
  import opened Wrappers
  import opened StorageModel
  import opened DataStorage
  import opened DataRepairModel

  method IsDamaged<D(==)>(storage: Storage<Ref, D>, ref: Ref, now: int) returns (damaged: bool)
    modifies storage
    ensures storage.Now() == Visited(old(storage.Now()), {ref}, now)
    ensures damaged <==> Damaged(old(storage.Now()), ref, now)
  {
    if ref.uid == INVALID_UID {
      return false;
    }
    var count := storage.GetRetrieveFailureCount(ref);
    if count == 0 {
      return false;
    }
    damaged := storage.HasRetrieveFailedFor(ref, GRACE_PERIOD, now);
    if !damaged {
      storage.RetryRetrieve(ref);
      assert Retries(old(storage.Now()), {ref}, now) == {ref};
    }
  }

  /** Every UID is visited, as visiting also queues the retries. */
  method AreAnyDamaged<D(==)>(storage: Storage<Ref, D>, cache: Cache, uids: seq<Uid>, now: int)
    returns (anyDamaged: bool)
    modifies storage
    ensures storage.Now() == Visited(old(storage.Now()), RefsIn(cache, uids), now)
    ensures anyDamaged <==> AnyDamaged(old(storage.Now()), RefsIn(cache, uids), now)
  {
    ghost var was := storage.Now();
    anyDamaged := false;
    for i := 0 to |uids|
      invariant storage.Now() == Visited(was, RefsIn(cache, uids[..i]), now)
      invariant anyDamaged <==> AnyDamaged(was, RefsIn(cache, uids[..i]), now)
    {
      var damaged := IsDamaged(storage, Ref(cache, uids[i]), now);
      anyDamaged := anyDamaged || damaged;
      RefsGrow(cache, uids, i);
      VisitMore(was, RefsIn(cache, uids[..i]), {Ref(cache, uids[i])}, now);
      OneDamaged(Visited(was, RefsIn(cache, uids[..i]), now), Ref(cache, uids[i]), now);
    }
    assert uids[..|uids|] == uids;
  }

  method DropDamagedReferences<D(==)>(storage: Storage<Ref, D>, cache: Cache, uids: seq<Uid>, now: int)
    returns (kept: seq<Uid>)
    modifies storage
    ensures storage.Now() == Visited(old(storage.Now()), RefsIn(cache, uids), now)
    ensures kept == Kept(old(storage.Now()), cache, uids, now)
  {
    ghost var was := storage.Now();
    kept := [];
    for i := 0 to |uids|
      invariant storage.Now() == Visited(was, RefsIn(cache, uids[..i]), now)
      invariant kept == Kept(was, cache, uids[..i], now)
    {
      var damaged := IsDamaged(storage, Ref(cache, uids[i]), now);
      if !damaged {
        kept := kept + [uids[i]];
      }
      assert uids[..i + 1][..i] == uids[..i];
      RefsGrow(cache, uids, i);
      VisitMore(was, RefsIn(cache, uids[..i]), {Ref(cache, uids[i])}, now);
      OneDamaged(Visited(was, RefsIn(cache, uids[..i]), now), Ref(cache, uids[i]), now);
    }
    assert uids[..|uids|] == uids;
  }

  class CharacterRecord {
    var lists: map<ListField, seq<Uid>>
    var singles: map<SingleField, Uid>
    var mountUid: Uid

    ghost function Now(): Character
      reads this
    {
      Character(lists, singles, mountUid)
    }

    /** Looks at every reference but the mount, in the order of the visitor. */
    method SurveyReferences<D(==)>(storage: Storage<Ref, D>, now: int) returns (anyDamaged: bool)
      requires Now().Complete()
      modifies storage
      ensures storage.Now() == Visited(old(storage.Now()), VisitedRefs(Now()), now)
      ensures anyDamaged <==> AnyDamaged(old(storage.Now()), VisitedRefs(Now()), now)
    {
      ghost var was, c := storage.Now(), Now();
      anyDamaged := false;
      assert ListRefs(c, []) == {};
      for i := 0 to |LISTS|
        invariant Now() == c
        invariant storage.Now() == Visited(was, ListRefs(c, LISTS[..i]), now)
        invariant anyDamaged <==> AnyDamaged(was, ListRefs(c, LISTS[..i]), now)
      {
        var f := LISTS[i];
        var damaged := AreAnyDamaged(storage, CacheOf(f), lists[f], now);
        anyDamaged := anyDamaged || damaged;
        ListRefsGrow(c, LISTS, i);
        VisitMore(was, ListRefs(c, LISTS[..i]), RefsIn(CacheOf(f), c.lists[f]), now);
      }
      assert LISTS[..|LISTS|] == LISTS;
      ghost var listed := ListRefs(c, LISTS);
      assert listed + SingleRefs(c, []) == listed;
      for i := 0 to |SINGLES|
        invariant Now() == c
        invariant storage.Now() == Visited(was, listed + SingleRefs(c, SINGLES[..i]), now)
        invariant anyDamaged <==> AnyDamaged(was, listed + SingleRefs(c, SINGLES[..i]), now)
      {
        var f := SINGLES[i];
        var damaged := IsDamaged(storage, Ref(CacheOfSingle(f), singles[f]), now);
        anyDamaged := anyDamaged || damaged;
        SingleRefsGrow(c, SINGLES, listed, i);
        VisitMore(was, listed + SingleRefs(c, SINGLES[..i]), {Ref(CacheOfSingle(f), c.singles[f])}, now);
        OneDamaged(Visited(was, listed + SingleRefs(c, SINGLES[..i]), now), Ref(CacheOfSingle(f), c.singles[f]), now);
      }
      assert SINGLES[..|SINGLES|] == SINGLES;
    }

    /** The first intact horse of the character. Horses are looked at until one is found. */
    method FindIntactHorse<D(==)>(storage: Storage<Ref, D>, now: int, ghost was: World<Ref, D>, ghost refs: set<Ref>)
      returns (horseUid: Uid)
      requires Now().Complete()
      requires storage.Now() == Visited(was, refs, now) && RefsIn(Horses, lists[OwnedHorses]) <= refs
      modifies storage
      ensures storage.Now() == old(storage.Now())
      ensures horseUid == FirstIntact(was, lists[OwnedHorses], now)
    {
      ghost var c := Now();
      var horses := lists[OwnedHorses];
      for i := 0 to |horses|
        invariant Now() == c
        invariant storage.Now() == Visited(was, refs, now)
        invariant FirstIntact(was, horses, now) == FirstIntact(was, horses[i..], now)
      {
        var damaged := IsDamaged(storage, Ref(Horses, horses[i]), now);
        VisitMore(was, refs, {Ref(Horses, horses[i])}, now);
        assert Ref(Horses, horses[i]) in RefsIn(Horses, horses);
        assert refs + {Ref(Horses, horses[i])} == refs;
        if !damaged {
          return horses[i];
        }
        assert horses[i..][1..] == horses[i + 1..];
      }
      horseUid := INVALID_UID;
    }

    method DropFromList<D(==)>(
      storage: Storage<Ref, D>, f: ListField, now: int, ghost was: World<Ref, D>, ghost refs: set<Ref>)
      requires f in lists && storage.Now() == Visited(was, refs, now)
      modifies storage, this`lists
      ensures storage.Now() == Visited(was, refs + RefsIn(CacheOf(f), old(lists)[f]), now)
      ensures lists == old(lists)[f := Kept(was, CacheOf(f), old(lists)[f], now)]
    {
      VisitMore(was, refs, RefsIn(CacheOf(f), lists[f]), now);
      SameKept(was, storage.Now(), CacheOf(f), lists[f], now);
      var kept := DropDamagedReferences(storage, CacheOf(f), lists[f], now);
      lists := lists[f := kept];
    }

    method DropFromLists<D(==)>(storage: Storage<Ref, D>, fields: seq<ListField>, now: int)
      requires Now().Complete()
      requires forall i, j | 0 <= i < j < |fields| :: fields[i] != fields[j]
      modifies storage, this`lists
      ensures storage.Now() == Visited(old(storage.Now()), ListRefs(old(Now()), fields), now)
      ensures lists == map f | f in old(lists) ::
        if f in fields then Kept(old(storage.Now()), CacheOf(f), old(lists)[f], now) else old(lists)[f]
    {
      ghost var was, c := storage.Now(), Now();
      assert ListRefs(c, []) == {};
      ghost var done := {};
      for i := 0 to |fields|
        invariant storage.Now() == Visited(was, ListRefs(c, fields[..i]), now)
        invariant forall j | 0 <= j < |fields| :: fields[j] in done <==> j < i
        invariant forall f | f in done :: f in fields
        invariant lists.Keys == c.lists.Keys
        invariant forall f | f in lists ::
          lists[f] == if f in done then Kept(was, CacheOf(f), c.lists[f], now) else c.lists[f]
      {
        DropFromList(storage, fields[i], now, was, ListRefs(c, fields[..i]));
        ListRefsGrow(c, fields, i);
        done := done + {fields[i]};
      }
      assert fields[..|fields|] == fields;
    }

    method DropFromAllLists<D(==)>(storage: Storage<Ref, D>, now: int)
      requires Now().Complete()
      modifies storage, this`lists
      ensures storage.Now() == Visited(old(storage.Now()), ListRefs(old(Now()), LISTS), now)
      ensures lists == KeptLists(old(storage.Now()), old(Now()), now)
    {
      EveryFieldIsVisited();
      DropFromLists(storage, LISTS, now);
    }

    method ClearSingles<D(==)>(
      storage: Storage<Ref, D>, fields: seq<SingleField>, now: int, ghost was: World<Ref, D>, ghost listed: set<Ref>)
      requires Now().Complete()
      requires forall i, j | 0 <= i < j < |fields| :: fields[i] != fields[j]
      requires storage.Now() == Visited(was, listed, now)
      modifies storage, this`singles
      ensures storage.Now() == Visited(was, listed + SingleRefs(old(Now()), fields), now)
      ensures singles == map f | f in old(singles) ::
        if f in fields then ClearedSingles(was, old(Now()), now)[f] else old(singles)[f]
    {
      ghost var c := Now();
      assert listed + SingleRefs(c, []) == listed;
      ghost var done := {};
      for i := 0 to |fields|
        invariant storage.Now() == Visited(was, listed + SingleRefs(c, fields[..i]), now)
        invariant forall j | 0 <= j < |fields| :: fields[j] in done <==> j < i
        invariant forall f | f in done :: f in fields
        invariant singles.Keys == c.singles.Keys
        invariant forall f | f in singles ::
          singles[f] == if f in done then ClearedSingles(was, c, now)[f] else c.singles[f]
      {
        var f := fields[i];
        VisitMore(was, listed + SingleRefs(c, fields[..i]), {Ref(CacheOfSingle(f), c.singles[f])}, now);
        var damaged := IsDamaged(storage, Ref(CacheOfSingle(f), singles[f]), now);
        if damaged {
          singles := singles[f := INVALID_UID];
        }
        SingleRefsGrow(c, fields, listed, i);
        done := done + {f};
      }
      assert fields[..|fields|] == fields;
    }

    method ClearAllSingles<D(==)>(storage: Storage<Ref, D>, now: int, ghost was: World<Ref, D>, ghost listed: set<Ref>)
      requires Now().Complete() && storage.Now() == Visited(was, listed, now)
      modifies storage, this`singles
      ensures storage.Now() == Visited(was, listed + SingleRefs(old(Now()), SINGLES), now)
      ensures singles == ClearedSingles(was, old(Now()), now)
    {
      EveryFieldIsVisited();
      ClearSingles(storage, SINGLES, now, was, listed);
    }

    /** The first half of the cleanse: looks at everything and picks a replacement for a damaged mount. */
    method Survey<D(==)>(storage: Storage<Ref, D>, now: int)
      returns (anyDamaged: bool, isMountDamaged: bool, replacementMountUid: Uid)
      requires Now().Complete()
      modifies storage
      ensures storage.Now() == Visited(old(storage.Now()), AllRefs(Now()), now)
      ensures anyDamaged <==> AnyDamaged(old(storage.Now()), AllRefs(Now()), now)
      ensures isMountDamaged <==> Damaged(old(storage.Now()), Ref(Horses, mountUid), now)
      ensures replacementMountUid ==
        if isMountDamaged then FirstIntact(old(storage.Now()), lists[OwnedHorses], now) else INVALID_UID
    {
      ghost var was, c := storage.Now(), Now();
      anyDamaged := SurveyReferences(storage, now);
      isMountDamaged := IsDamaged(storage, Ref(Horses, mountUid), now);
      VisitMore(was, VisitedRefs(c), {Ref(Horses, c.mountUid)}, now);
      OneDamaged(Visited(was, VisitedRefs(c), now), Ref(Horses, c.mountUid), now);
      replacementMountUid := INVALID_UID;
      if isMountDamaged {
        anyDamaged := true;
        HorsesAreVisited(c);
        replacementMountUid := FindIntactHorse(storage, now, was, AllRefs(c));
      }
    }

    /** `built` is the UID the data source gives a new horse, if it can create one, and `horse` the default
        horse. The result says whether the character was patched. */
    method CleanseCharacterReferences<D(==)>(
      storage: Storage<Ref, D>, survey: int, repair: int, built: Option<Uid>, horse: D) returns (patched: bool)
      requires Now().Complete()
      modifies storage, this
      ensures storage.Now() == CleansedWorld(old(storage.Now()), old(Now()), survey, repair, built, horse)
      ensures Now() == Cleansed(old(storage.Now()), old(Now()), survey, repair, built)
      ensures patched <==> AnyDamaged(old(storage.Now()), AllRefs(old(Now())), survey)
    {
      ghost var was, c := storage.Now(), Now();
      var anyDamaged, isMountDamaged, replacementMountUid := Survey(storage, survey);
      if !anyDamaged {
        return false;
      }
      if isMountDamaged && replacementMountUid == INVALID_UID {
        replacementMountUid := BuildMount(storage, built, horse);
      }
      assert storage.Now() == ReadyWorld(was, c, survey, built, horse);
      assert isMountDamaged ==> replacementMountUid == Replacement(was, c, survey, built);
      ghost var ready := storage.Now();
      ReadyFailures(was, c, survey, built, horse);
      SameRepair(was, ready, c, repair, isMountDamaged, replacementMountUid);
      Repair(storage, repair, isMountDamaged, replacementMountUid);
      patched := true;
    }

    /** The second half of the cleanse: patches the character. */
    method Repair<D(==)>(storage: Storage<Ref, D>, now: int, isMountDamaged: bool, replacementMountUid: Uid)
      requires Now().Complete()
      modifies storage, this
      ensures storage.Now() == Visited(old(storage.Now()), VisitedRefs(old(Now())), now)
      ensures Now() == Repaired(old(storage.Now()), old(Now()), now, isMountDamaged, replacementMountUid)
    {
      ghost var was, c := storage.Now(), Now();
      DropFromAllLists(storage, now);
      ClearAllSingles(storage, now, was, ListRefs(c, LISTS));
      if isMountDamaged && replacementMountUid != INVALID_UID {
        mountUid := replacementMountUid;
        var horses := Erase(lists[OwnedHorses], replacementMountUid);
        lists := lists[OwnedHorses := horses];
      }
    }
  }

  /** Builds the default horse; the invalid UID if the data source or the storage refuses. */
  method BuildMount<D(==)>(storage: Storage<Ref, D>, built: Option<Uid>, horse: D) returns (mountUid: Uid)
    modifies storage
    ensures storage.Now() == WithBuiltHorse(old(storage.Now()), built, horse)
    ensures mountUid ==
      if built.Some? && Ref(Horses, built.value) !in old(storage.Now()).entries then built.value else INVALID_UID
  {
    mountUid := INVALID_UID;
    if built.Some? {
      var created := storage.Create(Ref(Horses, built.value), storage.blank);
      if created {
        storage.Patch(Ref(Horses, built.value), horse);
        mountUid := built.value;
      }
    }
  }

  lemma ListRefsGrow(c: Character, fields: seq<ListField>, i: nat)
    requires c.Complete() && i < |fields|
    ensures ListRefs(c, fields[..i + 1]) == ListRefs(c, fields[..i]) + RefsIn(CacheOf(fields[i]), c.lists[fields[i]])
  {
    assert fields[..i + 1] == fields[..i] + [fields[i]];
  }

  lemma SingleRefsGrow(c: Character, fields: seq<SingleField>, listed: set<Ref>, i: nat)
    requires c.Complete() && i < |fields|
    ensures listed + SingleRefs(c, fields[..i + 1])
         == listed + SingleRefs(c, fields[..i]) + {Ref(CacheOfSingle(fields[i]), c.singles[fields[i]])}
  {
    assert fields[..i + 1] == fields[..i] + [fields[i]];
  }

  lemma RefsGrow(cache: Cache, uids: seq<Uid>, i: nat)
    requires i < |uids|
    ensures RefsIn(cache, uids[..i + 1]) == RefsIn(cache, uids[..i]) + {Ref(cache, uids[i])}
  {
    assert uids[..i + 1] == uids[..i] + [uids[i]];
  }

  lemma ListIsVisited(f: ListField)
    ensures f in LISTS
  {
    match f
    case Inventory => assert LISTS[0] == f;
    case CharacterEquipment => assert LISTS[1] == f;
    case ExpiredEquipment => assert LISTS[2] == f;
    case OwnedHorses => assert LISTS[3] == f;
    case BreedingWishlist => assert LISTS[4] == f;
    case OwnedEggs => assert LISTS[5] == f;
    case OwnedPets => assert LISTS[6] == f;
    case OwnedHousing => assert LISTS[7] == f;
    case Gifts => assert LISTS[8] == f;
    case Purchases => assert LISTS[9] == f;
    case Inbox => assert LISTS[10] == f;
    case Sent => assert LISTS[11] == f;
    case OwnedQuests => assert LISTS[12] == f;
  }

  lemma SingleIsVisited(f: SingleField)
    ensures f in SINGLES
  {
    match f
    case Guild => assert SINGLES[0] == f;
    case EquippedPet => assert SINGLES[1] == f;
    case SettingsRecord => assert SINGLES[2] == f;
    case DailyQuestGroup => assert SINGLES[3] == f;
  }

  lemma EveryFieldIsVisited()
    ensures forall f: ListField :: f in LISTS
    ensures forall f: SingleField :: f in SINGLES
  {
    forall f: ListField { ListIsVisited(f); }
    forall f: SingleField { SingleIsVisited(f); }
  }

  lemma HorsesAreVisited(c: Character)
    requires c.Complete()
    ensures RefsIn(Horses, c.lists[OwnedHorses]) <= AllRefs(c)
  {
    EveryFieldIsVisited();
  }

  lemma SameRepair<D>(w: World<Ref, D>, v: World<Ref, D>, c: Character, now: int, isMountDamaged: bool, mount: Uid)
    requires SameFailures(w, v) && c.Complete()
    ensures Repaired(v, c, now, isMountDamaged, mount) == Repaired(w, c, now, isMountDamaged, mount)
  {
    forall f | f in c.lists
      ensures Kept(v, CacheOf(f), c.lists[f], now) == Kept(w, CacheOf(f), c.lists[f], now)
    {
      SameKept(w, v, CacheOf(f), c.lists[f], now);
    }
    assert KeptLists(v, c, now) == KeptLists(w, c, now);
    assert ClearedSingles(v, c, now) == ClearedSingles(w, c, now);
  }

  method Erase(uids: seq<Uid>, gone: Uid) returns (kept: seq<Uid>)
    ensures kept == Without(uids, gone)
  {
    kept := [];
    for i := 0 to |uids|
      invariant kept == Without(uids[..i], gone)
    {
      assert uids[..i + 1][..i] == uids[..i];
      if uids[i] != gone {
        kept := kept + [uids[i]];
      }
    }
    assert uids[..|uids|] == uids;
  }

  /** The infractions of a user are cleansed the same way; the result says whether the user was patched. */
  method CleanseUserReferences<D(==)>(storage: Storage<Ref, D>, infractions: seq<Uid>, survey: int, repair: int)
    returns (kept: seq<Uid>, patched: bool)
    requires survey <= repair
    modifies storage
    ensures patched <==> AnyDamaged(old(storage.Now()), RefsIn(Infractions, infractions), survey)
    ensures kept == if patched then Kept(old(storage.Now()), Infractions, infractions, repair) else infractions
    ensures storage.Now() == Visited(old(storage.Now()), RefsIn(Infractions, infractions), survey)
  {
    ghost var was := storage.Now();
    patched := AreAnyDamaged(storage, Infractions, infractions, survey);
    if !patched {
      return infractions, false;
    }
    ghost var looked := storage.Now();
    assert SameFailures(was, looked);
    SameKept(was, looked, Infractions, infractions, repair);
    kept := DropDamagedReferences(storage, Infractions, infractions, repair);
    assert
      Retries(looked, RefsIn(Infractions, infractions), repair)
      <= Retries(was, RefsIn(Infractions, infractions), survey);
  }
}
