/**
 Lineage scores (src/server/ranch/Genetics.cpp) and their repair (src/server/system/HorseSystem.cpp) as
 functions on values, and what repeated repairs come to. A horse can only be read while it is resident in
 the cache (include/libserver/data/DataStorage.hpp). Looking for a horse that the cache has never been asked
 for requests it, once: the next tick makes it resident or fails, and after a failure only a retry asks again.
 LineageStorage.dfy proves that the cache does exactly this.
 */
module LineageModel {
  import opened Arithmetic

  type Uid = nat
  type Tid = nat

  const INVALID_UID: Uid := 0
  const MAX_LINEAGE: nat := 9

  datatype Horse = Horse(skinTid: Tid, mother: Uid, father: Uid, lineage: nat)

  datatype World = World(horses: map<Uid, Horse>, resident: set<Uid>, seen: set<Uid>, requested: set<Uid>) {
    ghost predicate Valid() {
      && resident <= horses.Keys && INVALID_UID !in horses
      && resident <= seen && requested <= seen
    }
  }

  datatype Ancestry = Ancestry(mare: Uid, stallion: Uid, grandparents: seq<Uid>)

  predicate IsResident(w: World, uid: Uid) {
    uid != INVALID_UID && uid in w.resident && uid in w.horses
  }

  function ReadSkin(w: World, uid: Uid): Tid {
    if IsResident(w, uid) then w.horses[uid].skinTid else 0
  }

  function MotherOf(w: World, uid: Uid): Uid {
    if IsResident(w, uid) then w.horses[uid].mother else INVALID_UID
  }

  function FatherOf(w: World, uid: Uid): Uid {
    if IsResident(w, uid) then w.horses[uid].father else INVALID_UID
  }

  function BuildAncestry(w: World, mare: Uid, stallion: Uid): Ancestry {
    Ancestry(mare, stallion, [MotherOf(w, mare), FatherOf(w, mare), MotherOf(w, stallion), FatherOf(w, stallion)])
  }

  function GrandparentScore(w: World, coat: Tid, uid: Uid): nat {
    if uid != INVALID_UID && ReadSkin(w, uid) == coat then 1 else 0
  }

  function ParentScore(w: World, coat: Tid, uid: Uid): nat {
    if ReadSkin(w, uid) == coat then 2 else 0
  }

  function GrandparentSum(w: World, coat: Tid, uids: seq<Uid>): nat {
    if uids == [] then 0
    else GrandparentSum(w, coat, uids[..|uids| - 1]) + GrandparentScore(w, coat, uids[|uids| - 1])
  }

  /** One for the foal, two for each parent and one for each grandparent that shares the coat. */
  function Score(w: World, coat: Tid, mare: Uid, stallion: Uid): nat {
    1 + ParentScore(w, coat, mare) + ParentScore(w, coat, stallion)
      + GrandparentSum(w, coat, BuildAncestry(w, mare, stallion).grandparents)
  }

  lemma GrandparentSumIs(w: World, coat: Tid, uids: seq<Uid>)
    requires |uids| == 4
    ensures GrandparentSum(w, coat, uids) ==
      GrandparentScore(w, coat, uids[0]) + GrandparentScore(w, coat, uids[1])
      + GrandparentScore(w, coat, uids[2]) + GrandparentScore(w, coat, uids[3])
  {
    var three, two, one := uids[..3], uids[..2], uids[..1];
    assert three[..2] == two && two[..1] == one && one[..0] == [];
    assert GrandparentSum(w, coat, one) == GrandparentScore(w, coat, uids[0]);
    assert GrandparentSum(w, coat, two) == GrandparentSum(w, coat, one) + GrandparentScore(w, coat, uids[1]);
    assert GrandparentSum(w, coat, three) == GrandparentSum(w, coat, two) + GrandparentScore(w, coat, uids[2]);
  }

  function ScoreOf(w: World, uid: Uid): nat {
    if IsResident(w, uid)
    then Score(w, w.horses[uid].skinTid, w.horses[uid].mother, w.horses[uid].father)
    else 0
  }

  function SetOf(uids: seq<Uid>): set<Uid> {
    set uid | uid in uids
  }

  /** The parents and the grandparents that can be read. */
  function Tree(w: World, mare: Uid, stallion: Uid): set<Uid> {
    {mare, stallion} + SetOf(BuildAncestry(w, mare, stallion).grandparents)
  }

  /** The horses a recalculation looks at. */
  function LookedAt(w: World, uid: Uid): set<Uid> {
    {uid} + if IsResident(w, uid) then Tree(w, w.horses[uid].mother, w.horses[uid].father) else {}
  }

  /** The horses among these that the cache is asked for the first time. */
  function News(w: World, uids: set<Uid>): set<Uid> {
    set uid | uid in uids && uid != INVALID_UID && uid !in w.seen
  }

  function Look(w: World, uids: set<Uid>): World {
    w.(seen := w.seen + News(w, uids), requested := w.requested + News(w, uids))
  }

  /** The repair of one horse: its lineage is raised to its score, never lowered. */
  function RepairOne(w: World, uid: Uid): World {
    var looked := Look(w, LookedAt(w, uid));
    if IsResident(w, uid) && ScoreOf(w, uid) > w.horses[uid].lineage
    then looked.(horses := w.horses[uid := w.horses[uid].(lineage := ScoreOf(w, uid))])
    else looked
  }

  function Repair(w: World, uids: seq<Uid>): World {
    if uids == [] then w else RepairOne(Repair(w, uids[..|uids| - 1]), uids[|uids| - 1])
  }

  /** The tick of the cache reads what was requested; the reads of some horses fail. */
  function Tick(w: World, fails: set<Uid>): World {
    w.(resident := w.resident + (set uid | uid in w.requested && uid in w.horses && uid !in fails), requested := {})
  }

  /** Others may have the cache ask again for horses it could not read. */
  function Retry(w: World, uids: set<Uid>): World {
    w.(requested := w.requested + (set uid | uid in uids && uid in w.seen && uid !in w.resident))
  }

  // ---------------------------------------------------------------------------------------------
  // The score.

  lemma ScoreRange(w: World, coat: Tid, mare: Uid, stallion: Uid)
    ensures 1 <= Score(w, coat, mare, stallion) <= MAX_LINEAGE
  {
    GrandparentSumIs(w, coat, BuildAncestry(w, mare, stallion).grandparents);
  }

  /** The same horses up to their lineages. */
  ghost predicate SameBreed(v: World, w: World) {
    && v.horses.Keys == w.horses.Keys
    && forall uid | uid in w.horses :: v.horses[uid].(lineage := 0) == w.horses[uid].(lineage := 0)
  }

  /** For a real coat, the score never falls as more ancestors become resident. */
  lemma ScoreGrows(v: World, w: World, coat: Tid, mare: Uid, stallion: Uid)
    requires SameBreed(v, w) && v.resident <= w.resident && coat != 0
    ensures Score(v, coat, mare, stallion) <= Score(w, coat, mare, stallion)
  {
    BreedIsRead(v, w);
    GrandparentSumIs(v, coat, BuildAncestry(v, mare, stallion).grandparents);
    GrandparentSumIs(w, coat, BuildAncestry(w, mare, stallion).grandparents);
  }

  /** For coat 0 it can fall: an absent parent reads as coat 0. */
  lemma ScoreOfCoatZeroCanFall()
    ensures
      var horses := map[1 := Horse(7, 0, 0, 1), 2 := Horse(7, 0, 0, 1)];
      Score(World(horses, {}, {}, {}), 0, 1, 2) == 5 && Score(World(horses, {1, 2}, {1, 2}, {}), 0, 1, 2) == 1
  {
    var horses := map[1 := Horse(7, 0, 0, 1), 2 := Horse(7, 0, 0, 1)];
    GrandparentSumIs(World(horses, {}, {}, {}), 0, [0, 0, 0, 0]);
    GrandparentSumIs(World(horses, {1, 2}, {1, 2}, {}), 0, [0, 0, 0, 0]);
  }

  ghost predicate ScoreNeverFalls(coat: Tid, mare: Uid, stallion: Uid) {
    forall v, w | SameBreed(v, w) && v.resident <= w.resident ::
      Score(v, coat, mare, stallion) <= Score(w, coat, mare, stallion)
  }

  lemma OneFallIsEnough(v: World, w: World, coat: Tid, mare: Uid, stallion: Uid)
    requires v.horses == w.horses && v.resident <= w.resident
    requires Score(v, coat, mare, stallion) > Score(w, coat, mare, stallion)
    ensures !ScoreNeverFalls(coat, mare, stallion)
  {
    assert SameBreed(v, w);
  }

  /** The scores of a coat never fall as horses become resident exactly if the coat is a real one. */
  lemma ScoreGrowsIff(coat: Tid)
    ensures (forall mare, stallion :: ScoreNeverFalls(coat, mare, stallion)) <==> coat != 0
  {
    if coat != 0 {
      forall mare, stallion
        ensures ScoreNeverFalls(coat, mare, stallion)
      {
        forall v, w | SameBreed(v, w) && v.resident <= w.resident
          ensures Score(v, coat, mare, stallion) <= Score(w, coat, mare, stallion)
        {
          ScoreGrows(v, w, coat, mare, stallion);
        }
      }
    } else {
      var horses := map[1 := Horse(7, 0, 0, 1), 2 := Horse(7, 0, 0, 1)];
      ScoreOfCoatZeroCanFall();
      OneFallIsEnough(World(horses, {}, {}, {}), World(horses, {1, 2}, {1, 2}, {}), coat, 1, 2);
    }
  }

  lemma BreedIsRead(v: World, w: World)
    requires SameBreed(v, w)
    ensures forall uid | uid in v.horses ::
      && v.horses[uid].skinTid == w.horses[uid].skinTid
      && v.horses[uid].mother == w.horses[uid].mother && v.horses[uid].father == w.horses[uid].father
  {
    forall uid | uid in v.horses
      ensures && v.horses[uid].skinTid == w.horses[uid].skinTid
              && v.horses[uid].mother == w.horses[uid].mother && v.horses[uid].father == w.horses[uid].father
    {
      assert v.horses[uid].(lineage := 0) == w.horses[uid].(lineage := 0);
    }
  }

  lemma ScoreIgnoresLineage(v: World, w: World, uid: Uid)
    requires SameBreed(v, w) && v.resident == w.resident
    ensures ScoreOf(v, uid) == ScoreOf(w, uid) && LookedAt(v, uid) == LookedAt(w, uid)
  {
    BreedIsRead(v, w);
    if IsResident(w, uid) {
      var h := w.horses[uid];
      SameGrandparentSum(v, w, h.skinTid, BuildAncestry(w, h.mother, h.father).grandparents);
    }
  }

  lemma {:induction false} SameGrandparentSum(v: World, w: World, coat: Tid, uids: seq<Uid>)
    requires SameBreed(v, w) && v.resident == w.resident
    ensures GrandparentSum(v, coat, uids) == GrandparentSum(w, coat, uids)
  {
    BreedIsRead(v, w);
    if uids != [] {
      SameGrandparentSum(v, w, coat, uids[..|uids| - 1]);
    }
  }

  // ---------------------------------------------------------------------------------------------
  // One repair.

  lemma {:induction false} RepairRaises(w: World, uids: seq<Uid>)
    requires w.Valid()
    ensures
      var r := Repair(w, uids);
      && r.horses.Keys == w.horses.Keys && r.resident == w.resident
      && forall uid | uid in w.horses ::
           r.horses[uid] == w.horses[uid].(lineage :=
             if uid in uids then Max(w.horses[uid].lineage, ScoreOf(w, uid)) else w.horses[uid].lineage)
  {
    if uids != [] {
      var n := |uids| - 1;
      var v := Repair(w, uids[..n]);
      RepairRaises(w, uids[..n]);
      assert SameBreed(v, w);
      ScoreIgnoresLineage(v, w, uids[n]);
      assert forall u :: u in uids <==> u in uids[..n] || u == uids[n];
    }
  }

  lemma {:induction false} RepairLooks(w: World, uids: seq<Uid>)
    requires w.Valid()
    ensures
      var r := Repair(w, uids);
      && (forall uid :: uid in r.seen <==>
            uid in w.seen || (uid != INVALID_UID && exists u | u in uids :: uid in LookedAt(w, u)))
      && (forall uid :: uid in r.requested <==> uid in w.requested || (uid in r.seen && uid !in w.seen))
  {
    if uids != [] {
      var n := |uids| - 1;
      var v := Repair(w, uids[..n]);
      RepairLooks(w, uids[..n]);
      RepairRaises(w, uids[..n]);
      assert SameBreed(v, w);
      ScoreIgnoresLineage(v, w, uids[n]);
      assert forall u :: u in uids <==> u in uids[..n] || u == uids[n];
    }
  }

  /** A repair raises the lineage of exactly the resident horses of the list to their scores, changes nothing
      else about any horse, and requests exactly what it looked at that was never asked for before. */
  lemma RepairIs(w: World, uids: seq<Uid>)
    requires w.Valid()
    ensures
      var r := Repair(w, uids);
      && r.Valid() && SameBreed(r, w) && r.resident == w.resident
      && (forall uid | uid in w.horses ::
            r.horses[uid].lineage ==
            if uid in uids then Max(w.horses[uid].lineage, ScoreOf(w, uid)) else w.horses[uid].lineage)
      && r.seen - w.seen == r.requested - w.requested && w.seen <= r.seen && w.requested <= r.requested
      && (forall uid :: uid in r.seen <==>
            uid in w.seen || (uid != INVALID_UID && exists u | u in uids :: uid in LookedAt(w, u)))
      && (forall uid | uid in r.seen && uid !in w.seen :: uid in r.requested)
      && (forall uid | uid in w.seen :: uid in r.requested <==> uid in w.requested)
  {
    RepairRaises(w, uids);
    RepairLooks(w, uids);
  }

  // ---------------------------------------------------------------------------------------------
  // Repeated repairs.

  /** What happens besides the repair in one round: which retrievals others retry, and which reads fail. */
  datatype Pass = Pass(fails: set<Uid>, retried: set<Uid>)

  function Round(w: World, uids: seq<Uid>, p: Pass): World {
    Tick(Retry(Repair(w, uids), p.retried), p.fails)
  }

  function Rounds(w: World, uids: seq<Uid>, ps: seq<Pass>): World {
    if ps == [] then w else Round(Rounds(w, uids, ps[..|ps| - 1]), uids, ps[|ps| - 1])
  }

  function Full(w: World): World {
    w.(resident := w.horses.Keys)
  }

  /** The score with every existing horse resident. */
  function TrueScore(w: World, uid: Uid): nat {
    ScoreOf(Full(w), uid)
  }

  ghost predicate HasCoat(w: World, uid: Uid) {
    IsResident(w, uid) && w.horses[uid].skinTid != 0
  }

  lemma RoundKeeps(w: World, uids: seq<Uid>, p: Pass)
    requires w.Valid()
    ensures
      var r := Round(w, uids, p);
      && r.Valid() && SameBreed(r, w) && w.resident <= r.resident && w.seen <= r.seen
      && forall uid | IsResident(w, uid) && uid in uids ::
           r.horses[uid].lineage == Max(w.horses[uid].lineage, ScoreOf(w, uid))
  {
    RepairIs(w, uids);
  }

  lemma {:induction false} RoundsKeep(w: World, uids: seq<Uid>, ps: seq<Pass>, uid: Uid)
    requires w.Valid() && IsResident(w, uid)
    ensures
      var r := Rounds(w, uids, ps);
      && r.Valid() && SameBreed(r, w) && w.resident <= r.resident && w.seen <= r.seen
      && IsResident(r, uid) && r.horses[uid].(lineage := 0) == w.horses[uid].(lineage := 0)
      && TrueScore(r, uid) == TrueScore(w, uid)
  {
    if ps != [] {
      var v := Rounds(w, uids, ps[..|ps| - 1]);
      RoundsKeep(w, uids, ps[..|ps| - 1], uid);
      RoundKeeps(v, uids, ps[|ps| - 1]);
    }
    var r := Rounds(w, uids, ps);
    BreedIsRead(r, w);
    ScoreIgnoresLineage(Full(r), Full(w), uid);
  }

  lemma ScoreAtMostTrue(w: World, uid: Uid)
    requires w.Valid() && HasCoat(w, uid)
    ensures ScoreOf(w, uid) <= TrueScore(w, uid)
  {
    var h := w.horses[uid];
    ScoreGrows(w, Full(w), h.skinTid, h.mother, h.father);
  }

  /** Whatever fails and whatever is retried, the lineage of a listed horse never falls, and for a real coat
      it never passes the larger of the stored lineage and the true score. */
  lemma {:induction false} RoundsNeverLower(w: World, uids: seq<Uid>, ps: seq<Pass>, uid: Uid)
    requires w.Valid() && IsResident(w, uid) && uid in uids
    ensures
      var r := Rounds(w, uids, ps);
      && r.Valid() && IsResident(r, uid) && w.horses[uid].lineage <= r.horses[uid].lineage
      && (HasCoat(w, uid) ==> r.horses[uid].lineage <= Max(w.horses[uid].lineage, TrueScore(w, uid)))
  {
    RoundsKeep(w, uids, ps, uid);
    if ps != [] {
      var v := Rounds(w, uids, ps[..|ps| - 1]);
      RoundsNeverLower(w, uids, ps[..|ps| - 1], uid);
      RoundsKeep(w, uids, ps[..|ps| - 1], uid);
      RoundKeeps(v, uids, ps[|ps| - 1]);
      if HasCoat(w, uid) {
        ScoreAtMostTrue(v, uid);
      }
    }
  }

  /** The lineage after any rounds is the larger of the stored one and the score of the last repair. */
  lemma {:induction false} LineageAfterRounds(w: World, uids: seq<Uid>, ps: seq<Pass>, uid: Uid)
    requires w.Valid() && HasCoat(w, uid) && uid in uids && ps != []
    ensures
      var r, v := Rounds(w, uids, ps), Rounds(w, uids, ps[..|ps| - 1]);
      && IsResident(r, uid) && IsResident(v, uid) && v.Valid() && HasCoat(v, uid) && SameBreed(v, w)
      && r.horses[uid].lineage == Max(w.horses[uid].lineage, ScoreOf(v, uid))
  {
    var n := |ps| - 1;
    var v := Rounds(w, uids, ps[..n]);
    RoundsKeep(w, uids, ps[..n], uid);
    RoundsKeep(w, uids, ps, uid);
    RoundKeeps(v, uids, ps[n]);
    if n > 0 {
      var u := Rounds(w, uids, ps[..n][..n - 1]);
      LineageAfterRounds(w, uids, ps[..n], uid);
      RoundKeeps(u, uids, ps[..n][n - 1]);
      BreedIsRead(v, u);
      var h := u.horses[uid];
      ScoreGrows(u, v, h.skinTid, h.mother, h.father);
    }
  }

  // ---------------------------------------------------------------------------------------------
  // When the true score is reached.

  /** What a parent and its own parents add to the score. */
  function SideScore(w: World, coat: Tid, parent: Uid): nat {
    ParentScore(w, coat, parent)
    + GrandparentScore(w, coat, MotherOf(w, parent)) + GrandparentScore(w, coat, FatherOf(w, parent))
  }

  predicate Carries(w: World, coat: Tid, uid: Uid) {
    uid in w.horses && w.horses[uid].skinTid == coat
  }

  /** Every parent and grandparent on this side has been read, or does not exist, or could not raise the score. */
  predicate SideIsSettled(w: World, coat: Tid, parent: Uid) {
    parent in w.horses ==>
      var mother, father := w.horses[parent].mother, w.horses[parent].father;
      if parent in w.resident
      then (mother in w.resident || !Carries(w, coat, mother)) && (father in w.resident || !Carries(w, coat, father))
      else !Carries(w, coat, parent) && !Carries(w, coat, mother) && !Carries(w, coat, father)
  }

  lemma SideScoreIsTrueIff(w: World, coat: Tid, parent: Uid)
    requires w.Valid() && coat != 0
    ensures SideScore(w, coat, parent) <= SideScore(Full(w), coat, parent)
    ensures SideScore(w, coat, parent) == SideScore(Full(w), coat, parent) <==> SideIsSettled(w, coat, parent)
  {
  }

  lemma ScoreIsSides(w: World, coat: Tid, mare: Uid, stallion: Uid)
    ensures Score(w, coat, mare, stallion) == 1 + SideScore(w, coat, mare) + SideScore(w, coat, stallion)
  {
    GrandparentSumIs(w, coat, BuildAncestry(w, mare, stallion).grandparents);
  }

  /** After any rounds the lineage is the larger of the stored one and the true score exactly if the stored
      one was as high already, or by the last repair every parent and grandparent that could raise the score
      had been read. */
  lemma RepairsConvergeIff(w: World, uids: seq<Uid>, ps: seq<Pass>, uid: Uid)
    requires w.Valid() && HasCoat(w, uid) && uid in uids && ps != []
    ensures IsResident(Rounds(w, uids, ps), uid)
    ensures
      var h, v := w.horses[uid], Rounds(w, uids, ps[..|ps| - 1]);
      Rounds(w, uids, ps).horses[uid].lineage == Max(h.lineage, TrueScore(w, uid))
      <==>
        || TrueScore(w, uid) <= h.lineage
        || (SideIsSettled(v, h.skinTid, h.mother) && SideIsSettled(v, h.skinTid, h.father))
  {
    var h, v := w.horses[uid], Rounds(w, uids, ps[..|ps| - 1]);
    LineageAfterRounds(w, uids, ps, uid);
    RoundsKeep(w, uids, ps[..|ps| - 1], uid);
    ScoreAtMostTrue(v, uid);
    ScoreIsSides(v, h.skinTid, h.mother, h.father);
    ScoreIsSides(Full(v), h.skinTid, h.mother, h.father);
    SideScoreIsTrueIff(v, h.skinTid, h.mother);
    SideScoreIsTrueIff(v, h.skinTid, h.father);
  }

  // ---------------------------------------------------------------------------------------------
  // When the ancestors get read.

  /** The existing parents and grandparents of an existing horse. */
  function Ancestors(w: World, uid: Uid): set<Uid> {
    if uid !in w.horses then {}
    else
      var parents := {w.horses[uid].mother, w.horses[uid].father} * w.horses.Keys;
      parents
      + (set p | p in parents :: w.horses[p].mother) * w.horses.Keys
      + (set p | p in parents :: w.horses[p].father) * w.horses.Keys
  }

  /** No read of the horse has failed for good: it is there, or under way, or never asked for. */
  predicate MayBeRead(w: World, uid: Uid) {
    uid in w.resident || uid in w.requested || uid !in w.seen
  }

  lemma RoundReads(w: World, uids: seq<Uid>, p: Pass, uid: Uid, a: Uid)
    requires w.Valid() && IsResident(w, uid) && uid in uids
    requires a in w.horses && MayBeRead(w, a) && a !in p.fails
    ensures MayBeRead(Round(w, uids, p), a)
    ensures a in LookedAt(w, uid) ==> a in Round(w, uids, p).resident
  {
    RepairIs(w, uids);
  }

  lemma RoundsMayBeRead(w: World, uids: seq<Uid>, ps: seq<Pass>, uid: Uid, a: Uid)
    requires w.Valid() && IsResident(w, uid) && uid in uids
    requires a in w.horses && MayBeRead(w, a) && forall i | 0 <= i < |ps| :: a !in ps[i].fails
    ensures MayBeRead(Rounds(w, uids, ps), a)
  {
    if ps != [] {
      var v := Rounds(w, uids, ps[..|ps| - 1]);
      RoundsMayBeRead(w, uids, ps[..|ps| - 1], uid, a);
      RoundsKeep(w, uids, ps[..|ps| - 1], uid);
      RoundReads(v, uids, ps[|ps| - 1], uid, a);
    }
  }

  /** If no read of an ancestor has failed and none fails, two rounds load the parents and the grandparents,
      so from the third repair on the lineage is the larger of the stored one and the true score, for good. */
  lemma {:induction false} RepairsConverge(w: World, uids: seq<Uid>, ps: seq<Pass>, uid: Uid)
    requires w.Valid() && HasCoat(w, uid) && uid in uids && |ps| >= 3
    requires forall a | a in Ancestors(w, uid) :: MayBeRead(w, a) && forall i | 0 <= i < |ps| :: a !in ps[i].fails
    ensures IsResident(Rounds(w, uids, ps), uid)
    ensures Rounds(w, uids, ps).horses[uid].lineage == Max(w.horses[uid].lineage, TrueScore(w, uid))
  {
    var h, v := w.horses[uid], Rounds(w, uids, ps[..|ps| - 1]);
    RepairsConvergeIff(w, uids, ps, uid);
    RoundsKeep(w, uids, ps[..|ps| - 1], uid);
    BreedIsRead(v, w);
    SideGetsRead(w, uids, ps[..|ps| - 1], uid, h.mother);
    SideGetsRead(w, uids, ps[..|ps| - 1], uid, h.father);
  }

  lemma ParentGetsRead(w: World, uids: seq<Uid>, ps: seq<Pass>, uid: Uid, parent: Uid)
    requires w.Valid() && IsResident(w, uid) && uid in uids && ps != []
    requires parent in {w.horses[uid].mother, w.horses[uid].father} && parent in w.horses
    requires MayBeRead(w, parent) && forall i | 0 <= i < |ps| :: parent !in ps[i].fails
    ensures parent in Rounds(w, uids, ps).resident
  {
    var v := Rounds(w, uids, ps[..|ps| - 1]);
    RoundsKeep(w, uids, ps[..|ps| - 1], uid);
    RoundsMayBeRead(w, uids, ps[..|ps| - 1], uid, parent);
    RoundReads(v, uids, ps[|ps| - 1], uid, parent);
  }

  lemma GrandparentGetsRead(w: World, uids: seq<Uid>, ps: seq<Pass>, uid: Uid, parent: Uid, a: Uid)
    requires w.Valid() && IsResident(w, uid) && uid in uids && |ps| >= 2
    requires parent in {w.horses[uid].mother, w.horses[uid].father} && parent in w.horses
    requires a in {w.horses[parent].mother, w.horses[parent].father} && a in w.horses
    requires forall x | x in {parent, a} :: MayBeRead(w, x) && forall i | 0 <= i < |ps| :: x !in ps[i].fails
    ensures a in Rounds(w, uids, ps).resident
  {
    var n := |ps| - 1;
    var v := Rounds(w, uids, ps[..n]);
    RoundsKeep(w, uids, ps[..n], uid);
    BreedIsRead(v, w);
    ParentGetsRead(w, uids, ps[..n], uid, parent);
    RoundsMayBeRead(w, uids, ps[..n], uid, a);
    assert a in LookedAt(v, uid) by {
      var g := BuildAncestry(v, v.horses[uid].mother, v.horses[uid].father).grandparents;
      assert a == g[0] || a == g[1] || a == g[2] || a == g[3];
    }
    RoundReads(v, uids, ps[n], uid, a);
  }

  lemma SideGetsRead(w: World, uids: seq<Uid>, ps: seq<Pass>, uid: Uid, parent: Uid)
    requires w.Valid() && HasCoat(w, uid) && uid in uids && |ps| >= 2
    requires parent in {w.horses[uid].mother, w.horses[uid].father}
    requires forall a | a in Ancestors(w, uid) :: MayBeRead(w, a) && forall i | 0 <= i < |ps| :: a !in ps[i].fails
    ensures SideIsSettled(Rounds(w, uids, ps), w.horses[uid].skinTid, parent)
  {
    var r := Rounds(w, uids, ps);
    RoundsKeep(w, uids, ps, uid);
    BreedIsRead(r, w);
    if parent in w.horses {
      assert parent in Ancestors(w, uid);
      ParentGetsRead(w, uids, ps, uid, parent);
      forall a | a in {w.horses[parent].mother, w.horses[parent].father} && a in w.horses
        ensures a in r.resident
      {
        assert a in Ancestors(w, uid);
        GrandparentGetsRead(w, uids, ps, uid, parent, a);
      }
    }
  }

  // ---------------------------------------------------------------------------------------------
  // When they do not.

  /** After a failed read the repairs never ask for the horse again. */
  lemma {:induction false} FailedReadIsFinal(w: World, uids: seq<Uid>, ps: seq<Pass>, a: Uid)
    requires w.Valid() && a in w.seen && a !in w.resident && a !in w.requested
    requires forall i | 0 <= i < |ps| :: a !in ps[i].retried
    ensures
      var r := Rounds(w, uids, ps);
      r.Valid() && a in r.seen && a !in r.resident && a !in r.requested
  {
    if ps != [] {
      var v := Rounds(w, uids, ps[..|ps| - 1]);
      FailedReadIsFinal(w, uids, ps[..|ps| - 1], a);
      RepairIs(v, uids);
    }
  }

  /** The first repair of a horse asks for its parents; if the read of one fails, that is what is left. */
  lemma FirstReadFails(w: World, uids: seq<Uid>, p: Pass, uid: Uid, a: Uid)
    requires w.Valid() && IsResident(w, uid) && uid in uids
    requires a in {w.horses[uid].mother, w.horses[uid].father} && a in w.horses
    requires a !in w.seen && a in p.fails
    ensures
      var r := Round(w, uids, p);
      r.Valid() && a in r.seen && a !in r.resident && a !in r.requested
  {
    RepairIs(w, uids);
    assert a in LookedAt(w, uid);
  }

  /** As long as nobody retries the read of a parent of the same coat, no number of repairs brings a lower
      lineage up to the true score. */
  lemma FailedReadKeepsLineageLow(w: World, uids: seq<Uid>, ps: seq<Pass>, uid: Uid, a: Uid)
    requires w.Valid() && HasCoat(w, uid) && uid in uids
    requires a in {w.horses[uid].mother, w.horses[uid].father} && Carries(w, w.horses[uid].skinTid, a)
    requires a in w.seen && a !in w.resident && a !in w.requested
    requires forall i | 0 <= i < |ps| :: a !in ps[i].retried
    requires w.horses[uid].lineage < TrueScore(w, uid)
    ensures IsResident(Rounds(w, uids, ps), uid)
    ensures Rounds(w, uids, ps).horses[uid].lineage < TrueScore(w, uid)
  {
    RoundsKeep(w, uids, ps, uid);
    if ps != [] {
      var v := Rounds(w, uids, ps[..|ps| - 1]);
      FailedReadIsFinal(w, uids, ps[..|ps| - 1], a);
      RoundsKeep(w, uids, ps[..|ps| - 1], uid);
      BreedIsRead(v, w);
      RepairsConvergeIff(w, uids, ps, uid);
      RoundsNeverLower(w, uids, ps, uid);
    }
  }

  lemma OnlyTheMotherShares(w: World)
    requires {1, 2} <= w.horses.Keys && INVALID_UID !in w.horses && 1 in w.resident
    requires w.horses[1].skinTid == w.horses[2].skinTid == 7 && w.horses[1].mother == 2 && w.horses[1].father == 0
    requires w.horses[2].mother == w.horses[2].father == 0
    ensures ScoreOf(w, 1) == if 2 in w.resident then 3 else 1
  {
    ScoreIsSides(w, 7, 2, 0);
  }

  /** That happens to a foal of coat 7 and lineage 1 whose mother has coat 7 too: its true score is 3. */
  lemma FoalWithMotherIsLow()
    ensures
      var w := World(map[1 := Horse(7, 2, 0, 1), 2 := Horse(7, 0, 0, 1)], {1}, {1}, {});
      w.Valid() && HasCoat(w, 1) && ScoreOf(w, 1) == 1 && TrueScore(w, 1) == 3
  {
    var w := World(map[1 := Horse(7, 2, 0, 1), 2 := Horse(7, 0, 0, 1)], {1}, {1}, {});
    OnlyTheMotherShares(w);
    OnlyTheMotherShares(Full(w));
  }

  /** In every world, what the first repair raised a lineage to is never lowered again. */
  lemma FirstScoreStays(w: World, uids: seq<Uid>, p: Pass, ps: seq<Pass>, uid: Uid)
    requires w.Valid() && IsResident(w, uid) && uid in uids
    ensures
      var r := Rounds(Round(w, uids, p), uids, ps);
      IsResident(r, uid) && r.horses[uid].lineage >= ScoreOf(w, uid)
  {
    RoundKeeps(w, uids, p);
    RoundsNeverLower(Round(w, uids, p), uids, ps, uid);
  }

  /** A foal of coat 0 whose parents have another coat. */
  const FOAL_OF_COAT_ZERO: World :=
    World(map[1 := Horse(0, 2, 3, 1), 2 := Horse(7, 0, 0, 1), 3 := Horse(7, 0, 0, 1)], {1}, {1}, {})

  lemma FoalOfCoatZeroScores()
    ensures
      var z := FOAL_OF_COAT_ZERO;
      z.Valid() && IsResident(z, 1) && ScoreOf(z, 1) == 5 && TrueScore(z, 1) == 1
  {
    ScoreIsSides(FOAL_OF_COAT_ZERO, 0, 2, 3);
    ScoreIsSides(Full(FOAL_OF_COAT_ZERO), 0, 2, 3);
  }

  /** The absent parents of a foal of coat 0 count, and what they raise is never lowered again. */
  lemma CoatZeroStaysHigh(p: Pass, ps: seq<Pass>)
    ensures
      var r := Rounds(Round(FOAL_OF_COAT_ZERO, [1], p), [1], ps);
      TrueScore(FOAL_OF_COAT_ZERO, 1) == 1 && 1 in r.horses && r.horses[1].lineage >= 5
  {
    FoalOfCoatZeroScores();
    FirstScoreStays(FOAL_OF_COAT_ZERO, [1], p, ps, 1);
  }
}
