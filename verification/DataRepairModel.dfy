/**
 The reference cleanser of src/libserver/data/DataRepair.cpp as functions on values, and what it guarantees.

 The storages of the data director are one StorageModel world here, whose keys name the storage and the
 UID. The clock is read twice: `survey` is the time while the character is looked at, `repair` the time
 while it is patched.
 */
module DataRepairModel {
  import opened Wrappers
  import opened StorageModel

  type Uid = nat

  const INVALID_UID: Uid := 0
  // The grace period of two seconds, in milliseconds.
  const GRACE_PERIOD: int := 2000

  datatype Cache =
    | Items | Horses | Eggs | Pets | Housing | StorageItems | Mails | Quests
    | Guilds | Settings | DailyQuestGroups | Infractions

  datatype Ref = Ref(cache: Cache, uid: Uid)

  /** The collections of references a character holds. */
  datatype ListField =
    | Inventory | CharacterEquipment | ExpiredEquipment | OwnedHorses | BreedingWishlist | OwnedEggs
    | OwnedPets | OwnedHousing | Gifts | Purchases | Inbox | Sent | OwnedQuests

  /** The single references a character holds, besides its mount. */
  datatype SingleField = Guild | EquippedPet | SettingsRecord | DailyQuestGroup

  function CacheOf(field: ListField): Cache {
    match field
    case Inventory | CharacterEquipment | ExpiredEquipment => Items
    case OwnedHorses | BreedingWishlist => Horses
    case OwnedEggs => Eggs
    case OwnedPets => Pets
    case OwnedHousing => Housing
    case Gifts | Purchases => StorageItems
    case Inbox | Sent => Mails
    case OwnedQuests => Quests
  }

  function CacheOfSingle(field: SingleField): Cache {
    match field
    case Guild => Guilds
    case EquippedPet => Pets
    case SettingsRecord => Settings
    case DailyQuestGroup => DailyQuestGroups
  }

  // The order in which the references are visited.
  const LISTS: seq<ListField> := [
    Inventory, CharacterEquipment, ExpiredEquipment, OwnedHorses, BreedingWishlist, OwnedEggs, OwnedPets,
    OwnedHousing, Gifts, Purchases, Inbox, Sent, OwnedQuests]
  const SINGLES: seq<SingleField> := [Guild, EquippedPet, SettingsRecord, DailyQuestGroup]

  datatype Character = Character(lists: map<ListField, seq<Uid>>, singles: map<SingleField, Uid>, mountUid: Uid) {
    ghost predicate Complete() {
      (forall f :: f in lists) && (forall f :: f in singles)
    }
  }

  // ---------------------------------------------------------------------------------------------
  // Damage and retries.

  ghost predicate IsFailing<D>(w: World<Ref, D>, ref: Ref) {
    ref.uid != INVALID_UID && EntryAt(w, ref).retrieveFailureCount != 0
  }

  ghost predicate Damaged<D>(w: World<Ref, D>, ref: Ref, now: int) {
    IsFailing(w, ref) && now - EntryAt(w, ref).firstRetrieveFailure >= GRACE_PERIOD
  }

  /** The references of which visiting queues another retrieval. */
  ghost function Retries<D>(w: World<Ref, D>, refs: set<Ref>, now: int): set<Ref> {
    set ref | ref in refs && IsFailing(w, ref) && !Damaged(w, ref, now)
  }

  ghost function Visited<D>(w: World<Ref, D>, refs: set<Ref>, now: int): World<Ref, D> {
    if Retries(w, refs, now) == {} then w
    else w.(retrieveQueue := Queue(w.retrieveQueue.data + Retries(w, refs, now), true))
  }

  ghost function RefsIn(cache: Cache, uids: seq<Uid>): set<Ref> {
    set uid | uid in uids :: Ref(cache, uid)
  }

  ghost function ListRefs(c: Character, fields: seq<ListField>): set<Ref>
    requires c.Complete()
  {
    set f, uid | f in fields && uid in c.lists[f] :: Ref(CacheOf(f), uid)
  }

  ghost function SingleRefs(c: Character, fields: seq<SingleField>): set<Ref>
    requires c.Complete()
  {
    set f | f in fields :: Ref(CacheOfSingle(f), c.singles[f])
  }

  /** The references the visitor visits: all of them but the mount. */
  ghost function VisitedRefs(c: Character): set<Ref>
    requires c.Complete()
  {
    ListRefs(c, LISTS) + SingleRefs(c, SINGLES)
  }

  ghost function AllRefs(c: Character): set<Ref>
    requires c.Complete()
  {
    VisitedRefs(c) + {Ref(Horses, c.mountUid)}
  }

  ghost predicate AnyDamaged<D>(w: World<Ref, D>, refs: set<Ref>, now: int) {
    exists ref | ref in refs :: Damaged(w, ref, now)
  }

  // ---------------------------------------------------------------------------------------------
  // The repair.

  ghost function Kept<D>(w: World<Ref, D>, cache: Cache, uids: seq<Uid>, now: int): seq<Uid> {
    if uids == [] then []
    else
      Kept(w, cache, uids[..|uids| - 1], now)
      + if Damaged(w, Ref(cache, uids[|uids| - 1]), now) then [] else [uids[|uids| - 1]]
  }

  function Without(uids: seq<Uid>, gone: Uid): seq<Uid> {
    if uids == [] then []
    else Without(uids[..|uids| - 1], gone) + if uids[|uids| - 1] == gone then [] else [uids[|uids| - 1]]
  }

  /** The first horse that is not damaged; the invalid UID if there is none. */
  ghost function FirstIntact<D>(w: World<Ref, D>, horses: seq<Uid>, now: int): Uid {
    if horses == [] then INVALID_UID
    else if Damaged(w, Ref(Horses, horses[0]), now) then FirstIntact(w, horses[1..], now)
    else horses[0]
  }

  /** The new mount: an intact horse of the character, or else the horse the data source builds. */
  ghost function Replacement<D>(w: World<Ref, D>, c: Character, survey: int, built: Option<Uid>): Uid
    requires c.Complete()
  {
    var intact := FirstIntact(w, c.lists[OwnedHorses], survey);
    if intact != INVALID_UID then intact
    else if built.Some? && Ref(Horses, built.value) !in w.entries then built.value
    else INVALID_UID
  }

  ghost function KeptLists<D>(w: World<Ref, D>, c: Character, now: int): map<ListField, seq<Uid>> {
    map f | f in c.lists :: Kept(w, CacheOf(f), c.lists[f], now)
  }

  ghost function ClearedSingles<D>(w: World<Ref, D>, c: Character, now: int): map<SingleField, Uid> {
    map f | f in c.singles ::
      if Damaged(w, Ref(CacheOfSingle(f), c.singles[f]), now) then INVALID_UID else c.singles[f]
  }

  /** The character with its damaged references dropped, and with a new mount if it needs and gets one. */
  ghost function Repaired<D>(w: World<Ref, D>, c: Character, now: int, isMountDamaged: bool, mount: Uid): Character
    requires c.Complete()
  {
    var lists, singles := KeptLists(w, c, now), ClearedSingles(w, c, now);
    if isMountDamaged && mount != INVALID_UID
    then Character(lists[OwnedHorses := Without(lists[OwnedHorses], mount)], singles, mount)
    else Character(lists, singles, c.mountUid)
  }

  /** The character after a cleanse; it is patched exactly when something was found to be damaged. */
  ghost function Cleansed<D>(w: World<Ref, D>, c: Character, survey: int, repair: int, built: Option<Uid>): Character
    requires c.Complete()
  {
    if AnyDamaged(w, AllRefs(c), survey)
    then Repaired(w, c, repair, Damaged(w, Ref(Horses, c.mountUid), survey), Replacement(w, c, survey, built))
    else c
  }

  // ---------------------------------------------------------------------------------------------
  // The collections keep exactly their undamaged references, in order.

  ghost predicate IsSubsequence(positions: seq<nat>, sub: seq<Uid>, all: seq<Uid>) {
    && |positions| == |sub|
    && (forall i | 0 <= i < |sub| :: positions[i] < |all| && all[positions[i]] == sub[i])
    && (forall i, j | 0 <= i < j < |sub| :: positions[i] < positions[j])
  }

  lemma OneMoreInOrder(positions: seq<nat>, sub: seq<Uid>, before: seq<Uid>, uid: Uid)
    requires IsSubsequence(positions, sub, before)
    ensures IsSubsequence(positions, sub, before + [uid])
    ensures IsSubsequence(positions + [|before|], sub + [uid], before + [uid])
  {
  }

  lemma {:induction false} KeptInOrder<D>(w: World<Ref, D>, cache: Cache, uids: seq<Uid>, now: int)
    returns (positions: seq<nat>)
    ensures IsSubsequence(positions, Kept(w, cache, uids, now), uids)
  {
    if uids == [] {
      positions := [];
    } else {
      var before, last := uids[..|uids| - 1], uids[|uids| - 1];
      positions := KeptInOrder(w, cache, before, now);
      OneMoreInOrder(positions, Kept(w, cache, before, now), before, last);
      assert uids == before + [last];
      if !Damaged(w, Ref(cache, last), now) {
        positions := positions + [|before|];
      }
    }
  }

  /** Every undamaged reference is kept as often as it was there, and no damaged one is kept. */
  lemma {:induction false} KeptExactly<D>(w: World<Ref, D>, cache: Cache, uids: seq<Uid>, now: int, uid: Uid)
    ensures
      multiset(Kept(w, cache, uids, now))[uid]
      == if Damaged(w, Ref(cache, uid), now) then 0 else multiset(uids)[uid]
  {
    if uids != [] {
      assert uids == uids[..|uids| - 1] + [uids[|uids| - 1]];
      KeptExactly(w, cache, uids[..|uids| - 1], now, uid);
    }
  }

  lemma KeptMembers<D>(w: World<Ref, D>, cache: Cache, uids: seq<Uid>, now: int)
    ensures forall uid :: uid in Kept(w, cache, uids, now) <==> uid in uids && !Damaged(w, Ref(cache, uid), now)
  {
    forall uid
      ensures uid in Kept(w, cache, uids, now) <==> uid in uids && !Damaged(w, Ref(cache, uid), now)
    {
      KeptExactly(w, cache, uids, now, uid);
      assert uid in uids <==> multiset(uids)[uid] > 0;
      assert uid in Kept(w, cache, uids, now) <==> multiset(Kept(w, cache, uids, now))[uid] > 0;
    }
  }

  lemma {:induction false} WithoutMembers(uids: seq<Uid>, gone: Uid, uid: Uid)
    ensures uid in Without(uids, gone) <==> uid in uids && uid != gone
  {
    if uids != [] {
      assert uids == uids[..|uids| - 1] + [uids[|uids| - 1]];
      WithoutMembers(uids[..|uids| - 1], gone, uid);
    }
  }

  lemma {:induction false} FirstIntactIsIntact<D>(w: World<Ref, D>, horses: seq<Uid>, now: int)
    ensures
      var uid := FirstIntact(w, horses, now);
      uid != INVALID_UID ==> uid in horses && !Damaged(w, Ref(Horses, uid), now)
  {
    if horses != [] {
      FirstIntactIsIntact(w, horses[1..], now);
    }
  }

  // ---------------------------------------------------------------------------------------------
  // The guarantees.

  ghost predicate MountIsReplaced<D>(w: World<Ref, D>, c: Character, survey: int, built: Option<Uid>)
    requires c.Complete()
  {
    Damaged(w, Ref(Horses, c.mountUid), survey) && Replacement(w, c, survey, built) != INVALID_UID
  }

  /** A collection drops what is damaged at the repair; the horses also drop the new mount. */
  ghost predicate Drops<D>(
    w: World<Ref, D>, c: Character, survey: int, repair: int, built: Option<Uid>, f: ListField, uid: Uid)
    requires c.Complete()
  {
    || Damaged(w, Ref(CacheOf(f), uid), repair)
    || (f == OwnedHorses && MountIsReplaced(w, c, survey, built) && uid == Replacement(w, c, survey, built))
  }

  ghost predicate InOrder(sub: seq<Uid>, all: seq<Uid>) {
    exists positions :: IsSubsequence(positions, sub, all)
  }

  lemma {:induction false} WithoutInOrder(uids: seq<Uid>, gone: Uid) returns (positions: seq<nat>)
    ensures IsSubsequence(positions, Without(uids, gone), uids)
  {
    if uids == [] {
      positions := [];
    } else {
      var before, last := uids[..|uids| - 1], uids[|uids| - 1];
      positions := WithoutInOrder(before, gone);
      OneMoreInOrder(positions, Without(before, gone), before, last);
      assert uids == before + [last];
      if last != gone {
        positions := positions + [|before|];
      }
    }
  }

  lemma {:induction false} WithoutExactly(uids: seq<Uid>, gone: Uid, uid: Uid)
    ensures multiset(Without(uids, gone))[uid] == if uid == gone then 0 else multiset(uids)[uid]
  {
    if uids != [] {
      assert uids == uids[..|uids| - 1] + [uids[|uids| - 1]];
      WithoutExactly(uids[..|uids| - 1], gone, uid);
    }
  }

  lemma Compose(p: seq<nat>, q: seq<nat>, a: seq<Uid>, b: seq<Uid>, c: seq<Uid>)
    requires IsSubsequence(p, a, b) && IsSubsequence(q, b, c)
    ensures InOrder(a, c)
  {
    var r := seq(|p|, i requires 0 <= i < |p| => q[p[i]]);
    assert IsSubsequence(r, a, c);
  }

  lemma KeptOnly<D>(w: World<Ref, D>, cache: Cache, all: seq<Uid>, now: int)
    ensures
      var sub := Kept(w, cache, all, now);
      && InOrder(sub, all)
      && forall uid :: multiset(sub)[uid] == if Damaged(w, Ref(cache, uid), now) then 0 else multiset(all)[uid]
  {
    var positions := KeptInOrder(w, cache, all, now);
    forall uid
      ensures multiset(Kept(w, cache, all, now))[uid] ==
        if Damaged(w, Ref(cache, uid), now) then 0 else multiset(all)[uid]
    {
      KeptExactly(w, cache, all, now, uid);
    }
  }

  lemma KeptWithout<D>(w: World<Ref, D>, cache: Cache, all: seq<Uid>, now: int, gone: Uid)
    ensures
      var sub := Without(Kept(w, cache, all, now), gone);
      && InOrder(sub, all)
      && forall uid ::
           multiset(sub)[uid] == if Damaged(w, Ref(cache, uid), now) || uid == gone then 0 else multiset(all)[uid]
  {
    var kept := Kept(w, cache, all, now);
    var positions := KeptInOrder(w, cache, all, now);
    var left := WithoutInOrder(kept, gone);
    Compose(left, positions, Without(kept, gone), kept, all);
    forall uid
      ensures multiset(Without(kept, gone))[uid] ==
        if Damaged(w, Ref(cache, uid), now) || uid == gone then 0 else multiset(all)[uid]
    {
      KeptExactly(w, cache, all, now, uid);
      WithoutExactly(kept, gone, uid);
    }
  }

  lemma AllFields(f: ListField, g: SingleField)
    ensures f in LISTS && g in SINGLES
  {
    assert LISTS[0] == Inventory && LISTS[1] == CharacterEquipment && LISTS[2] == ExpiredEquipment;
    assert LISTS[3] == OwnedHorses && LISTS[4] == BreedingWishlist && LISTS[5] == OwnedEggs && LISTS[6] == OwnedPets;
    assert LISTS[7] == OwnedHousing && LISTS[8] == Gifts && LISTS[9] == Purchases && LISTS[10] == Inbox;
    assert LISTS[11] == Sent && LISTS[12] == OwnedQuests;
    assert SINGLES[0] == Guild && SINGLES[1] == EquippedPet && SINGLES[2] == SettingsRecord;
    assert SINGLES[3] == DailyQuestGroup;
  }

  /** No reference is forgotten: a character is patched exactly if anything it refers to in any collection, in any
      single reference or as its mount is damaged. */
  lemma EveryReferenceIsSeen<D>(w: World<Ref, D>, c: Character, now: int)
    requires c.Complete()
    ensures AnyDamaged(w, AllRefs(c), now) <==>
      || (exists f, uid :: uid in c.lists[f] && Damaged(w, Ref(CacheOf(f), uid), now))
      || (exists g :: Damaged(w, Ref(CacheOfSingle(g), c.singles[g]), now))
      || Damaged(w, Ref(Horses, c.mountUid), now)
  {
    if f, uid :| uid in c.lists[f] && Damaged(w, Ref(CacheOf(f), uid), now) {
      AllFields(f, Guild);
      assert Ref(CacheOf(f), uid) in AllRefs(c);
    }
    if g :| Damaged(w, Ref(CacheOfSingle(g), c.singles[g]), now) {
      AllFields(Inventory, g);
      assert Ref(CacheOfSingle(g), c.singles[g]) in AllRefs(c);
    }
    if Damaged(w, Ref(Horses, c.mountUid), now) {
      assert Ref(Horses, c.mountUid) in AllRefs(c);
    }
  }

  lemma CleansedListIs<D>(w: World<Ref, D>, c: Character, survey: int, repair: int, built: Option<Uid>, f: ListField)
    requires c.Complete() && AnyDamaged(w, AllRefs(c), survey)
    ensures
      var kept := Kept(w, CacheOf(f), c.lists[f], repair);
      Cleansed(w, c, survey, repair, built).lists[f] ==
      if f == OwnedHorses && MountIsReplaced(w, c, survey, built)
      then Without(kept, Replacement(w, c, survey, built)) else kept
  {
  }

  lemma CleansedList<D>(w: World<Ref, D>, c: Character, survey: int, repair: int, built: Option<Uid>, f: ListField)
    requires c.Complete() && AnyDamaged(w, AllRefs(c), survey)
    ensures
      var sub, all := Cleansed(w, c, survey, repair, built).lists[f], c.lists[f];
      && InOrder(sub, all)
      && forall uid ::
           multiset(sub)[uid] == if Drops(w, c, survey, repair, built, f, uid) then 0 else multiset(all)[uid]
  {
    var sub, all := Cleansed(w, c, survey, repair, built).lists[f], c.lists[f];
    CleansedListIs(w, c, survey, repair, built, f);
    KeptOnly(w, CacheOf(f), all, repair);
    KeptWithout(w, CacheOf(f), all, repair, Replacement(w, c, survey, built));
    forall uid
      ensures multiset(sub)[uid] == if Drops(w, c, survey, repair, built, f, uid) then 0 else multiset(all)[uid]
    {
    }
  }

  /** A character with no damaged reference is not patched. Otherwise every collection, the horses included,
      keeps its order and exactly its undamaged references, each as often as before, but for the new mount
      among the horses; and exactly the damaged single references are cleared. */
  lemma CleansedReferences<D>(w: World<Ref, D>, c: Character, survey: int, repair: int, built: Option<Uid>)
    requires c.Complete()
    ensures
      var c' := Cleansed(w, c, survey, repair, built);
      && c'.Complete()
      && (!AnyDamaged(w, AllRefs(c), survey) ==> c' == c)
      && (AnyDamaged(w, AllRefs(c), survey) ==>
            && (forall f ::
                  && InOrder(c'.lists[f], c.lists[f])
                  && forall uid :: multiset(c'.lists[f])[uid] ==
                       if Drops(w, c, survey, repair, built, f, uid) then 0 else multiset(c.lists[f])[uid])
            && (forall f :: c'.singles[f] ==
                  if Damaged(w, Ref(CacheOfSingle(f), c.singles[f]), repair) then INVALID_UID else c.singles[f]))
  {
    if AnyDamaged(w, AllRefs(c), survey) {
      forall f
        ensures
          var sub, all := Cleansed(w, c, survey, repair, built).lists[f], c.lists[f];
          && InOrder(sub, all)
          && forall uid ::
               multiset(sub)[uid] == if Drops(w, c, survey, repair, built, f, uid) then 0 else multiset(all)[uid]
      {
        CleansedList(w, c, survey, repair, built, f);
      }
    }
  }

  /** A new mount was not damaged when it was chosen, comes from the horses or was just built, and is no
      longer one of the horses; the mount only changes if it was damaged. */
  lemma CleansedMount<D>(w: World<Ref, D>, c: Character, survey: int, repair: int, built: Option<Uid>)
    requires c.Complete()
    ensures
      var c' := Cleansed(w, c, survey, repair, built);
      c'.mountUid != c.mountUid ==>
        (&& Damaged(w, Ref(Horses, c.mountUid), survey)
         && !Damaged(w, Ref(Horses, c'.mountUid), survey)
         && (c'.mountUid in c.lists[OwnedHorses] || built == Some(c'.mountUid))
         && c'.mountUid !in c'.lists[OwnedHorses])
  {
    var c' := Cleansed(w, c, survey, repair, built);
    FirstIntactIsIntact(w, c.lists[OwnedHorses], survey);
    if c'.mountUid != c.mountUid {
      WithoutMembers(Kept(w, Horses, c.lists[OwnedHorses], repair), c'.mountUid, c'.mountUid);
    }
  }

  lemma HorsesAfterCleanse<D>(w: World<Ref, D>, c: Character, now: int, built: Option<Uid>, uid: Uid)
    requires c.Complete() && AnyDamaged(w, AllRefs(c), now)
    ensures
      var c' := Cleansed(w, c, now, now, built);
      uid in c'.lists[OwnedHorses] <==>
        uid in c.lists[OwnedHorses] && !Damaged(w, Ref(Horses, uid), now)
        && (Damaged(w, Ref(Horses, c.mountUid), now) ==> uid != c'.mountUid || c'.mountUid == c.mountUid)
  {
    KeptMembers(w, Horses, c.lists[OwnedHorses], now);
    FirstIntactIsIntact(w, c.lists[OwnedHorses], now);
    var c' := Cleansed(w, c, now, now, built);
    WithoutMembers(Kept(w, Horses, c.lists[OwnedHorses], now), c'.mountUid, uid);
  }

  lemma OnceCleansed<D>(w: World<Ref, D>, c: Character, now: int, built: Option<Uid>)
    requires c.Complete()
    ensures
      var c' := Cleansed(w, c, now, now, built);
      && c'.Complete()
      && (!AnyDamaged(w, AllRefs(c'), now)
          <==> !Damaged(w, Ref(Horses, c.mountUid), now) || Replacement(w, c, now, built) != INVALID_UID)
  {
    var c' := Cleansed(w, c, now, now, built);
    if AnyDamaged(w, AllRefs(c), now) {
      FirstIntactIsIntact(w, c.lists[OwnedHorses], now);
      forall ref | ref in VisitedRefs(c')
        ensures !Damaged(w, ref, now)
      {
        if f, uid :| f in LISTS && uid in c'.lists[f] && ref == Ref(CacheOf(f), uid) {
          KeptMembers(w, CacheOf(f), c.lists[f], now);
          if f == OwnedHorses {
            HorsesAfterCleanse(w, c, now, built, uid);
          }
        }
      }
      assert Ref(Horses, c'.mountUid) in AllRefs(c');
    } else {
      assert Ref(Horses, c.mountUid) in AllRefs(c);
    }
  }

  lemma CleansedFailures<D>(
    w: World<Ref, D>, c: Character, survey: int, repair: int, built: Option<Uid>, horse: D, refs: set<Ref>, now: int)
    requires c.Complete()
    ensures
      var after := CleansedWorld(w, c, survey, repair, built, horse);
      SameFailures(w, after) && (AnyDamaged(after, refs, now) <==> AnyDamaged(w, refs, now))
  {
    var ready := ReadyWorld(w, c, survey, built, horse);
    ReadyFailures(w, c, survey, built, horse);
    VisitedFailures(ready, VisitedRefs(c), repair);
    VisitedFailures(w, AllRefs(c), survey);
    var after := CleansedWorld(w, c, survey, repair, built, horse);
    assert forall ref :: Damaged(after, ref, now) <==> Damaged(w, ref, now);
  }

  /** Cleansing again at the same time, in the world the first cleanse left, finds nothing, unless the mount
      is damaged and no replacement could be found or built: then it reports the damaged mount again. */
  lemma SecondCleanseFindsNothingIff<D>(w: World<Ref, D>, c: Character, now: int, built: Option<Uid>, horse: D)
    requires c.Complete()
    ensures
      var c' := Cleansed(w, c, now, now, built);
      && c'.Complete()
      && (!AnyDamaged(CleansedWorld(w, c, now, now, built, horse), AllRefs(c'), now)
          <==> !Damaged(w, Ref(Horses, c.mountUid), now) || Replacement(w, c, now, built) != INVALID_UID)
  {
    OnceCleansed(w, c, now, built);
    CleansedFailures(w, c, now, now, built, horse, AllRefs(Cleansed(w, c, now, now, built)), now);
  }

  /** Visiting in two steps is visiting once: retries accumulate and change nothing else. */
  lemma VisitedTwice<D>(w: World<Ref, D>, a: set<Ref>, b: set<Ref>, first: int, second: int)
    requires first <= second
    ensures Visited(Visited(w, a, first), b, second) ==
      if Retries(w, a, first) + Retries(w, b, second) == {} then w
      else w.(retrieveQueue := Queue(w.retrieveQueue.data + Retries(w, a, first) + Retries(w, b, second), true))
  {
    var v := Visited(w, a, first);
    assert Retries(v, b, second) == Retries(w, b, second) by {
      forall ref
        ensures EntryAt(v, ref) == EntryAt(w, ref)
      {
      }
    }
  }

  /** Visiting one reference more. */
  lemma VisitMore<D>(w: World<Ref, D>, refs: set<Ref>, more: set<Ref>, now: int)
    ensures Visited(Visited(w, refs, now), more, now) == Visited(w, refs + more, now)
    ensures
      AnyDamaged(w, refs + more, now)
      <==> AnyDamaged(w, refs, now) || AnyDamaged(Visited(w, refs, now), more, now)
    ensures SameFailures(w, Visited(w, refs, now))
  {
    RetriesOfUnion(w, refs, more, now);
    VisitedFailures(w, refs, now);
  }

  lemma VisitedFailures<D>(w: World<Ref, D>, refs: set<Ref>, now: int)
    ensures SameFailures(w, Visited(w, refs, now))
  {
  }

  lemma OneDamaged<D>(w: World<Ref, D>, ref: Ref, now: int)
    ensures AnyDamaged(w, {ref}, now) <==> Damaged(w, ref, now)
  {
    if Damaged(w, ref, now) {
      assert ref in {ref};
    }
  }

  lemma RetriesOfUnion<D>(w: World<Ref, D>, a: set<Ref>, b: set<Ref>, now: int)
    ensures Retries(w, a + b, now) == Retries(w, a, now) + Retries(w, b, now)
    ensures Visited(Visited(w, a, now), b, now) == Visited(w, a + b, now)
  {
    VisitedTwice(w, a, b, now, now);
    assert Retries(w, a + b, now) == Retries(w, a, now) + Retries(w, b, now);
  }

  // ---------------------------------------------------------------------------------------------
  // The world after a cleanse.

  /** The world when the repair begins: if the mount is damaged and no horse is intact, a horse has been
      created and built for the character, provided the data source could. */
  ghost function ReadyWorld<D>(w: World<Ref, D>, c: Character, survey: int, built: Option<Uid>, horse: D): World<Ref, D>
    requires c.Complete()
  {
    var looked := Visited(w, AllRefs(c), survey);
    if Damaged(w, Ref(Horses, c.mountUid), survey) && FirstIntact(w, c.lists[OwnedHorses], survey) == INVALID_UID
    then WithBuiltHorse(looked, built, horse)
    else looked
  }

  ghost function WithBuiltHorse<D>(w: World<Ref, D>, built: Option<Uid>, horse: D): World<Ref, D> {
    if built.Some? && Ref(Horses, built.value) !in w.entries
    then Patch(Create(w, Ref(Horses, built.value), w.blank), Ref(Horses, built.value), horse)
    else w
  }

  ghost function CleansedWorld<D>(
    w: World<Ref, D>, c: Character, survey: int, repair: int, built: Option<Uid>, horse: D): World<Ref, D>
    requires c.Complete()
  {
    if AnyDamaged(w, AllRefs(c), survey) then Visited(ReadyWorld(w, c, survey, built, horse), VisitedRefs(c), repair)
    else Visited(w, AllRefs(c), survey)
  }

  /** Two worlds in which the same references fail since the same time. */
  ghost predicate SameFailures<D>(w: World<Ref, D>, v: World<Ref, D>) {
    forall ref ::
      && EntryAt(v, ref).retrieveFailureCount == EntryAt(w, ref).retrieveFailureCount
      && EntryAt(v, ref).firstRetrieveFailure == EntryAt(w, ref).firstRetrieveFailure
  }

  lemma {:induction false} SameKept<D>(w: World<Ref, D>, v: World<Ref, D>, cache: Cache, uids: seq<Uid>, now: int)
    requires SameFailures(w, v)
    ensures Kept(v, cache, uids, now) == Kept(w, cache, uids, now)
  {
    if uids != [] {
      SameKept(w, v, cache, uids[..|uids| - 1], now);
    }
  }

  lemma BuiltHorseFailures<D>(w: World<Ref, D>, built: Option<Uid>, horse: D)
    ensures SameFailures(w, WithBuiltHorse(w, built, horse))
  {
  }

  lemma ReadyFailures<D>(w: World<Ref, D>, c: Character, survey: int, built: Option<Uid>, horse: D)
    requires c.Complete()
    ensures SameFailures(w, ReadyWorld(w, c, survey, built, horse))
  {
    var looked := Visited(w, AllRefs(c), survey);
    VisitedFailures(w, AllRefs(c), survey);
    BuiltHorseFailures(looked, built, horse);
  }

  lemma SameRetries<D>(w: World<Ref, D>, v: World<Ref, D>, refs: set<Ref>, now: int)
    requires SameFailures(w, v)
    ensures Retries(v, refs, now) == Retries(w, refs, now)
  {
  }

  /** Only the retrieve queue grows, by these references, and no cached record is lost. */
  ghost predicate OnlyQueues<D>(w: World<Ref, D>, v: World<Ref, D>, refs: set<Ref>) {
    && v.retrieveQueue.data == w.retrieveQueue.data + refs
    && v.source == w.source && v.deleteQueue == w.deleteQueue
    && forall ref | ref in w.entries :: ref in v.entries && v.entries[ref] == w.entries[ref]
  }

  lemma VisitedQueues<D>(w: World<Ref, D>, refs: set<Ref>, now: int)
    ensures OnlyQueues(w, Visited(w, refs, now), Retries(w, refs, now))
  {
  }

  lemma BuiltHorseQueues<D>(w: World<Ref, D>, built: Option<Uid>, horse: D)
    ensures OnlyQueues(w, WithBuiltHorse(w, built, horse), {})
  {
  }

  lemma OneAfterTheOther<D>(w: World<Ref, D>, v: World<Ref, D>, u: World<Ref, D>, refs: set<Ref>, more: set<Ref>)
    requires OnlyQueues(w, v, refs) && OnlyQueues(v, u, more) && more <= refs
    ensures OnlyQueues(w, u, refs)
  {
  }

  lemma ReadyQueues<D>(w: World<Ref, D>, c: Character, survey: int, built: Option<Uid>, horse: D)
    requires c.Complete()
    ensures OnlyQueues(w, ReadyWorld(w, c, survey, built, horse), Retries(w, AllRefs(c), survey))
  {
    var looked := Visited(w, AllRefs(c), survey);
    VisitedQueues(w, AllRefs(c), survey);
    BuiltHorseQueues(looked, built, horse);
    OneAfterTheOther(w, looked, WithBuiltHorse(looked, built, horse), Retries(w, AllRefs(c), survey), {});
  }

  /** Later fewer references fail without being damaged. */
  lemma RetriesShrink<D>(w: World<Ref, D>, refs: set<Ref>, all: set<Ref>, survey: int, repair: int)
    requires refs <= all && survey <= repair
    ensures Retries(w, refs, repair) <= Retries(w, all, survey)
  {
  }

  /** The key of the reference has failed, for less than the grace period. */
  ghost predicate FailsForNow<D>(w: World<Ref, D>, ref: Ref, now: int) {
    && ref.uid != INVALID_UID && ref in w.entries && w.entries[ref].retrieveFailureCount > 0
    && now < w.entries[ref].firstRetrieveFailure + 2000
  }

  lemma RetriesAre<D>(w: World<Ref, D>, refs: set<Ref>, now: int)
    ensures forall ref :: ref in Retries(w, refs, now) <==> ref in refs && FailsForNow(w, ref, now)
  {
  }

  /** Looking at a character queues a retrieval for every reference that fails but is not yet damaged, and
      for nothing else; it deletes nothing and changes no cached record. */
  lemma CleanseRetries<D>(w: World<Ref, D>, c: Character, survey: int, repair: int, built: Option<Uid>, horse: D)
    requires c.Complete() && survey <= repair
    ensures
      var after := CleansedWorld(w, c, survey, repair, built, horse);
      && (forall ref :: ref in after.retrieveQueue.data
            <==> ref in w.retrieveQueue.data || (ref in AllRefs(c) && FailsForNow(w, ref, survey)))
      && after.source == w.source && after.deleteQueue == w.deleteQueue
      && (forall ref | ref in w.entries :: ref in after.entries && after.entries[ref] == w.entries[ref])
  {
    RetriesAre(w, AllRefs(c), survey);
    if AnyDamaged(w, AllRefs(c), survey) {
      RepairQueues(w, c, survey, repair, built, horse);
    } else {
      VisitedQueues(w, AllRefs(c), survey);
    }
  }

  lemma RepairQueues<D>(w: World<Ref, D>, c: Character, survey: int, repair: int, built: Option<Uid>, horse: D)
    requires c.Complete() && survey <= repair
    ensures
      var ready := ReadyWorld(w, c, survey, built, horse);
      OnlyQueues(w, Visited(ready, VisitedRefs(c), repair), Retries(w, AllRefs(c), survey))
  {
    var ready := ReadyWorld(w, c, survey, built, horse);
    ReadyQueues(w, c, survey, built, horse);
    ReadyFailures(w, c, survey, built, horse);
    SameRetries(w, ready, VisitedRefs(c), repair);
    RetriesShrink(w, VisitedRefs(c), AllRefs(c), survey, repair);
    VisitedQueues(ready, VisitedRefs(c), repair);
    OneAfterTheOther(
      w, ready, Visited(ready, VisitedRefs(c), repair), Retries(w, AllRefs(c), survey),
      Retries(ready, VisitedRefs(c), repair));
  }

  // ---------------------------------------------------------------------------------------------
  // The new mount.

  /** The i-th horse is the first of the list that is not damaged. The invalid UID is never damaged. */
  ghost predicate IsFirstUndamaged<D>(w: World<Ref, D>, horses: seq<Uid>, now: int, i: int) {
    && 0 <= i < |horses| && !Damaged(w, Ref(Horses, horses[i]), now)
    && forall j | 0 <= j < i :: Damaged(w, Ref(Horses, horses[j]), now)
  }

  /** There is a horse to ride: one that is not damaged, and no invalid UID before it. */
  ghost predicate HasMount<D>(w: World<Ref, D>, horses: seq<Uid>, now: int) {
    exists i :: IsFirstUndamaged(w, horses, now, i) && horses[i] != INVALID_UID
  }

  lemma {:induction false} FirstIntactIs<D>(w: World<Ref, D>, horses: seq<Uid>, now: int)
    ensures
      var uid := FirstIntact(w, horses, now);
      if uid == INVALID_UID then !HasMount(w, horses, now)
      else exists i :: IsFirstUndamaged(w, horses, now, i) && horses[i] == uid
  {
    if horses != [] {
      var rest := horses[1..];
      FirstIntactIs(w, rest, now);
      assert forall j | 0 <= j < |rest| :: rest[j] == horses[j + 1];
      if Damaged(w, Ref(Horses, horses[0]), now) {
        assert forall i | i > 0 :: IsFirstUndamaged(w, horses, now, i) <==> IsFirstUndamaged(w, rest, now, i - 1);
        assert forall i :: IsFirstUndamaged(w, rest, now, i) <==> i >= 0 && IsFirstUndamaged(w, horses, now, i + 1);
        assert !IsFirstUndamaged(w, horses, now, 0);
      } else {
        assert IsFirstUndamaged(w, horses, now, 0);
        assert forall i | IsFirstUndamaged(w, horses, now, i) :: i == 0;
      }
    }
  }

  lemma OneFirstUndamaged<D>(w: World<Ref, D>, horses: seq<Uid>, now: int, i: int, j: int)
    requires IsFirstUndamaged(w, horses, now, i) && IsFirstUndamaged(w, horses, now, j)
    ensures i == j
  {
  }

  /** A damaged mount gives way to the first horse of the character that is not damaged, and then no horse is
      created. */
  lemma FirstUndamagedIsMount<D>(
    w: World<Ref, D>, c: Character, survey: int, repair: int, built: Option<Uid>, horse: D, i: int)
    requires c.Complete() && Damaged(w, Ref(Horses, c.mountUid), survey)
    requires IsFirstUndamaged(w, c.lists[OwnedHorses], survey, i) && c.lists[OwnedHorses][i] != INVALID_UID
    ensures Cleansed(w, c, survey, repair, built).mountUid == c.lists[OwnedHorses][i]
    ensures CleansedWorld(w, c, survey, repair, built, horse).entries == w.entries
  {
    var horses := c.lists[OwnedHorses];
    assert Ref(Horses, c.mountUid) in AllRefs(c);
    FirstIntactIs(w, horses, survey);
    assert HasMount(w, horses, survey);
    var k :| IsFirstUndamaged(w, horses, survey, k) && horses[k] == FirstIntact(w, horses, survey);
    OneFirstUndamaged(w, horses, survey, i, k);
  }

  /** The horse that was built, if the data source could, is cached and waits to be stored. */
  ghost predicate IsBuilt<D>(w: World<Ref, D>, v: World<Ref, D>, built: Option<Uid>, horse: D) {
    if built.Some? && Ref(Horses, built.value) !in w.entries
    then
      && v.entries == w.entries[Ref(Horses, built.value) := Entry(horse, true, 0, 0)]
      && Ref(Horses, built.value) in v.storeQueue.data
    else v.entries == w.entries
  }

  lemma BuiltHorseIsCached<D>(w: World<Ref, D>, built: Option<Uid>, horse: D, v: World<Ref, D>)
    requires v.entries == w.entries
    ensures IsBuilt(w, WithBuiltHorse(v, built, horse), built, horse)
  {
  }

  lemma ReadyIsBuilt<D>(w: World<Ref, D>, c: Character, survey: int, built: Option<Uid>, horse: D)
    requires c.Complete() && Damaged(w, Ref(Horses, c.mountUid), survey) && !HasMount(w, c.lists[OwnedHorses], survey)
    ensures IsBuilt(w, ReadyWorld(w, c, survey, built, horse), built, horse)
  {
    FirstIntactIs(w, c.lists[OwnedHorses], survey);
    BuiltHorseIsCached(w, built, horse, Visited(w, AllRefs(c), survey));
  }

  /** Without such a horse one is built, if the data source can, and becomes the mount. */
  lemma BuiltHorseIsMount<D>(
    w: World<Ref, D>, c: Character, survey: int, repair: int, built: Option<Uid>, horse: D)
    requires c.Complete() && Damaged(w, Ref(Horses, c.mountUid), survey) && !HasMount(w, c.lists[OwnedHorses], survey)
    ensures IsBuilt(w, CleansedWorld(w, c, survey, repair, built, horse), built, horse)
    ensures Cleansed(w, c, survey, repair, built).mountUid ==
      if built.Some? && Ref(Horses, built.value) !in w.entries && built.value != INVALID_UID
      then built.value else c.mountUid
  {
    assert Ref(Horses, c.mountUid) in AllRefs(c);
    FirstIntactIs(w, c.lists[OwnedHorses], survey);
    ReadyIsBuilt(w, c, survey, built, horse);
  }

  /** So a horse is created exactly if the mount is damaged, no such horse is listed and the data source has a new
      one; and a mount that is not damaged stays. */
  lemma HorseIsCreatedIff<D>(
    w: World<Ref, D>, c: Character, survey: int, repair: int, built: Option<Uid>, horse: D)
    requires c.Complete()
    ensures
      CleansedWorld(w, c, survey, repair, built, horse).entries.Keys != w.entries.Keys
      <==>
        && Damaged(w, Ref(Horses, c.mountUid), survey) && !HasMount(w, c.lists[OwnedHorses], survey)
        && built.Some? && Ref(Horses, built.value) !in w.entries
    ensures
      !Damaged(w, Ref(Horses, c.mountUid), survey) ==> Cleansed(w, c, survey, repair, built).mountUid == c.mountUid
  {
    var horses := c.lists[OwnedHorses];
    if Damaged(w, Ref(Horses, c.mountUid), survey) {
      if i :| IsFirstUndamaged(w, horses, survey, i) && horses[i] != INVALID_UID {
        FirstUndamagedIsMount(w, c, survey, repair, built, horse, i);
      } else {
        BuiltHorseIsMount(w, c, survey, repair, built, horse);
        if built.Some? && Ref(Horses, built.value) !in w.entries {
          assert Ref(Horses, built.value) in CleansedWorld(w, c, survey, repair, built, horse).entries.Keys;
        }
      }
    }
  }
}
