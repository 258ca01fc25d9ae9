/** The lineage repair of src/server/system/HorseSystem.cpp, proved against LineageModel. */
module Lineage {
  import opened Arithmetic
  import opened LineageModel
  import Model = LineageModel

  class HorseSystem {
    var horses: map<Uid, Horse>
    var resident: set<Uid>
    var seen: set<Uid>
    var requested: set<Uid>

    ghost function Now(): World
      reads this
    {
      World(horses, resident, seen, requested)
    }

    /** Whether the record is resident; if it was never asked for before, it is requested. */
    method GetHorse(uid: Uid) returns (found: bool)
      modifies this`seen, this`requested
      ensures Now() == Look(old(Now()), {uid})
      ensures found == IsResident(Now(), uid)
    {
      if uid == INVALID_UID {
        return false;
      }
      if uid !in seen {
        seen, requested := seen + {uid}, requested + {uid};
      }
      assert Now().requested == Look(old(Now()), {uid}).requested && Now().seen == Look(old(Now()), {uid}).seen;
      found := uid in resident && uid in horses;
    }

    method ReadPart(uid: Uid) returns (skinTid: Tid)
      modifies this`seen, this`requested
      ensures Now() == Look(old(Now()), {uid})
      ensures skinTid == ReadSkin(Now(), uid)
    {
      var found := GetHorse(uid);
      skinTid := if found then horses[uid].skinTid else 0;
    }

    method ReadGrandparents(parent: Uid) returns (mother: Uid, father: Uid)
      modifies this`seen, this`requested
      ensures Now() == Look(old(Now()), {parent})
      ensures mother == MotherOf(Now(), parent) && father == FatherOf(Now(), parent)
    {
      mother, father := INVALID_UID, INVALID_UID;
      var found := GetHorse(parent);
      if found {
        mother, father := horses[parent].mother, horses[parent].father;
      }
    }

    method BuildAncestry(mare: Uid, stallion: Uid) returns (ancestry: Ancestry)
      modifies this`seen, this`requested
      ensures Now() == Look(old(Now()), {mare, stallion})
      ensures ancestry == Model.BuildAncestry(Now(), mare, stallion)
    {
      var m, f := ReadGrandparents(mare);
      var m', f' := ReadGrandparents(stallion);
      ancestry := Ancestry(mare, stallion, [m, f, m', f']);
    }

    method CalculateLineage(coat: Tid, mare: Uid, stallion: Uid) returns (lineage: nat)
      modifies this`seen, this`requested
      ensures lineage == Score(old(Now()), coat, mare, stallion)
      ensures Now() == Look(old(Now()), Tree(old(Now()), mare, stallion))
    {
      ghost var was := Now();
      lineage := 1;
      var ancestry := BuildAncestry(mare, stallion);
      var skin := ReadPart(ancestry.mare);
      if skin == coat {
        lineage := lineage + 2;
      }
      skin := ReadPart(ancestry.stallion);
      if skin == coat {
        lineage := lineage + 2;
      }
      assert lineage == 1 + ParentScore(was, coat, mare) + ParentScore(was, coat, stallion);
      assert Now() == Look(was, {mare, stallion});
      var matching := CountMatching(coat, ancestry.grandparents);
      lineage := lineage + matching;
      LookTwice(was, {mare, stallion}, SetOf(ancestry.grandparents));
      SameGrandparentSum(Look(was, {mare, stallion}), was, coat, ancestry.grandparents);
      ScoreRange(was, coat, mare, stallion);
      lineage := Min(lineage, MAX_LINEAGE);
    }

    method CountMatching(coat: Tid, uids: seq<Uid>) returns (matching: nat)
      modifies this`seen, this`requested
      ensures matching == GrandparentSum(old(Now()), coat, uids)
      ensures Now() == Look(old(Now()), SetOf(uids))
    {
      ghost var was := Now();
      matching := 0;
      assert Now() == Look(was, {} + SetOf(uids[..0]));
      for i := 0 to |uids|
        invariant matching == GrandparentSum(was, coat, uids[..i])
        invariant Now() == Look(was, {} + SetOf(uids[..i]))
      {
        if uids[i] != INVALID_UID {
          var part := ReadPart(uids[i]);
          if part == coat {
            matching := matching + 1;
          }
        }
        LookMore(was, {}, uids, i);
      }
      assert uids[..|uids|] == uids && {} + SetOf(uids) == SetOf(uids);
    }

    /** Looks at the whole tree, so that what is missing is requested, and scores what is there. */
    method RecalculateLineage(uid: Uid) returns (lineage: nat)
      modifies this`seen, this`requested
      ensures Now() == Look(old(Now()), LookedAt(old(Now()), uid))
      ensures lineage == ScoreOf(old(Now()), uid)
    {
      ghost var was := Now();
      var found := GetHorse(uid);
      if !found {
        return 0;
      }
      var horse := horses[uid];
      RequestAncestry(horse.mother, horse.father);
      ScoreIgnoresLineage(Now(), was, uid);
      lineage := CalculateLineage(horse.skinTid, horse.mother, horse.father);
      assert requested == Look(was, LookedAt(was, uid)).requested && seen == Look(was, LookedAt(was, uid)).seen;
    }

    /** Requests the parents and, through the resident parents, the grandparents. */
    method RequestAncestry(mare: Uid, stallion: Uid)
      modifies this`seen, this`requested
      ensures Now() == Look(old(Now()), Tree(old(Now()), mare, stallion))
    {
      ghost var was := Now();
      var found := GetHorse(mare);
      found := GetHorse(stallion);
      var ancestry := BuildAncestry(mare, stallion);
      ghost var gps := ancestry.grandparents;
      assert Now() == Look(was, {mare, stallion} + SetOf(gps[..0]));
      for i := 0 to 4
        invariant Now() == Look(was, {mare, stallion} + SetOf(gps[..i]))
      {
        found := GetHorse(ancestry.grandparents[i]);
        LookMore(was, {mare, stallion}, gps, i);
      }
      assert gps[..4] == gps;
    }

    /** Raises the lineage of a horse to its score, if the horse is there and its score is higher. */
    method RepairLineage(uid: Uid) returns (raised: bool)
      modifies this
      ensures Now() == RepairOne(old(Now()), uid)
      ensures raised == Raises(old(Now()), uid)
    {
      ghost var was := Now();
      raised := false;
      var found := GetHorse(uid);
      if found {
        LookAgain(was, uid);
        ScoreIgnoresLineage(Now(), was, uid);
        var recalculated := RecalculateLineage(uid);
        if recalculated > horses[uid].lineage {
          horses := horses[uid := horses[uid].(lineage := recalculated)];
          raised := true;
        }
      }
    }

    /** `repairedCount` counts the raised lineages. */
    method RepairLineages(uids: seq<Uid>) returns (repairedCount: nat)
      modifies this
      ensures Now() == Repair(old(Now()), uids)
      ensures repairedCount == Raised(old(Now()), uids)
    {
      ghost var was := Now();
      repairedCount := 0;
      for i := 0 to |uids|
        invariant Now() == Repair(was, uids[..i]) && repairedCount == Raised(was, uids[..i])
      {
        assert uids[..i + 1][..i] == uids[..i];
        var raised := RepairLineage(uids[i]);
        if raised {
          repairedCount := repairedCount + 1;
        }
      }
      assert uids[..|uids|] == uids;
    }

    /** The tick of the cache the horses are in, some of whose reads fail. */
    method Tick(fails: set<Uid>)
      modifies this
      ensures Now() == Model.Tick(old(Now()), fails)
    {
      resident := resident + (set uid | uid in requested && uid in horses && uid !in fails);
      requested := {};
    }
  }

  lemma LookTwice(w: World, a: set<Uid>, b: set<Uid>)
    ensures Look(Look(w, a), b) == Look(w, a + b)
  {
    assert News(w, a) + News(Look(w, a), b) == News(w, a + b);
    assert Look(Look(w, a), b).requested == Look(w, a + b).requested && Look(Look(w, a), b).seen == Look(w, a + b).seen;
  }

  lemma LookAgain(w: World, uid: Uid)
    ensures Look(Look(w, {uid}), LookedAt(Look(w, {uid}), uid)) == Look(w, LookedAt(w, uid))
  {
    assert LookedAt(Look(w, {uid}), uid) == LookedAt(w, uid);
    assert {uid} + LookedAt(w, uid) == LookedAt(w, uid);
    LookTwice(w, {uid}, LookedAt(w, uid));
  }

  /** Looking at one horse more; the invalid UID is never requested. */
  lemma LookMore(w: World, seen: set<Uid>, uids: seq<Uid>, i: nat)
    requires i < |uids|
    ensures uids[..i + 1][..i] == uids[..i]
    ensures Look(Look(w, seen + SetOf(uids[..i])), {uids[i]}) == Look(w, seen + SetOf(uids[..i + 1]))
    ensures uids[i] == INVALID_UID ==> Look(w, seen + SetOf(uids[..i])) == Look(w, seen + SetOf(uids[..i + 1]))
  {
    assert uids[..i + 1] == uids[..i] + [uids[i]];
    assert SetOf(uids[..i + 1]) == SetOf(uids[..i]) + {uids[i]};
    LookTwice(w, seen + SetOf(uids[..i]), {uids[i]});
    assert seen + SetOf(uids[..i]) + {uids[i]} == seen + SetOf(uids[..i + 1]);
    assert uids[i] == INVALID_UID ==> News(w, seen + SetOf(uids[..i])) == News(w, seen + SetOf(uids[..i + 1]));
  }

  predicate Raises(w: World, uid: Uid) {
    IsResident(w, uid) && ScoreOf(w, uid) > w.horses[uid].lineage
  }

  /** How many repairs of the list raise a lineage. */
  function Raised(w: World, uids: seq<Uid>): nat {
    if uids == [] then 0
    else
      Raised(w, uids[..|uids| - 1]) + if Raises(Repair(w, uids[..|uids| - 1]), uids[|uids| - 1]) then 1 else 0
  }

  ghost function RaisedSet(w: World, r: World, uids: seq<Uid>): set<Uid>
    requires r.horses.Keys == w.horses.Keys
  {
    set uid | uid in uids && uid in w.horses && r.horses[uid].lineage > w.horses[uid].lineage
  }

  /** A horse is counted at most once however often it is listed, and only if its lineage rose. */
  lemma {:induction false} RaisedCountsRaises(w: World, uids: seq<Uid>)
    requires w.Valid()
    ensures Repair(w, uids).horses.Keys == w.horses.Keys
    ensures Raised(w, uids) == |RaisedSet(w, Repair(w, uids), uids)|
  {
    RepairIs(w, uids);
    if uids == [] {
      assert RaisedSet(w, w, []) == {};
    } else {
      var n, uid := |uids| - 1, uids[|uids| - 1];
      var v := Repair(w, uids[..n]);
      assert uids == uids[..n] + [uid];
      RaisedCountsRaises(w, uids[..n]);
      RepairsOnceAtMost(w, uids[..n], uid);
      RaisedOneMore(w, v, uids[..n], uid);
    }
  }

  lemma RepairsOnceAtMost(w: World, uids: seq<Uid>, uid: Uid)
    requires w.Valid()
    ensures
      var v := Repair(w, uids);
      && v.horses.Keys == w.horses.Keys
      && (uid in w.horses && (uid !in uids || Raises(v, uid)) ==> v.horses[uid].lineage == w.horses[uid].lineage)
  {
    RepairIs(w, uids);
    ScoreIgnoresLineage(Repair(w, uids), w, uid);
  }

  lemma RaisedOneMore(w: World, v: World, uids: seq<Uid>, uid: Uid)
    requires v.horses.Keys == w.horses.Keys
    requires uid in w.horses && (uid !in uids || Raises(v, uid)) ==> v.horses[uid].lineage == w.horses[uid].lineage
    ensures
      |RaisedSet(w, RepairOne(v, uid), uids + [uid])| == |RaisedSet(w, v, uids)| + if Raises(v, uid) then 1 else 0
  {
    var before, raised := RaisedSet(w, v, uids), RaisedSet(w, RepairOne(v, uid), uids + [uid]);
    if Raises(v, uid) {
      assert uid !in before && raised == before + {uid};
    } else {
      assert raised == before;
    }
  }
}
