/**
 Friend lists (src/server/messenger/MessengerDirector.cpp) as functions on values. A character keeps its
 friends in groups; group 0 is the default one. A character's record can be changed only while available.
 */
module ContactsModel {
  import opened Words

  type Uid = Word

  const FRIENDS_CATEGORY_UID: Uid := 0
  const INVALID_UID: Uid := 0
  const INTERNAL_NAME: string := "_internal_friends_group_"

  datatype Group = Group(uid: Uid, name: string, members: set<Uid>)
  datatype Character = Character(name: string, pending: set<Uid>, groups: map<Uid, Group>)
  datatype World = World(characters: map<Uid, Character>, available: set<Uid>)

  datatype Error =
    | TargetUnavailable
    | MoveGroupDoesNotExist | MoveAlreadyInGroup | MoveFriendNotFound
    | RenameGroupDoesNotExist | RenameDuplicateName
    | DeleteGroupDoesNotExist | DeleteDefaultGroupMissing

  /** `Threw`: the record was unavailable. */
  datatype Outcome = Done | Added(groupUid: Uid) | Cancelled(error: Error) | Ignored | Threw

  predicate Available(w: World, uid: Uid) {
    uid in w.available && uid in w.characters
  }

  function With(w: World, uid: Uid, c: Character): World {
    w.(characters := w.characters[uid := c])
  }

  // ---------------------------------------------------------------------------------------------
  // What a request does to one character.

  /** The friend goes to the default group, which is created if it is missing. */
  function Befriend(c: Character, friend: Uid): Character {
    var group := if FRIENDS_CATEGORY_UID in c.groups then c.groups[FRIENDS_CATEGORY_UID]
                 else Group(FRIENDS_CATEGORY_UID, INTERNAL_NAME, {});
    c.(pending := c.pending - {friend},
       groups := c.groups[FRIENDS_CATEGORY_UID := group.(members := group.members + {friend})])
  }

  function Unfriend(c: Character, friend: Uid): Character {
    c.(groups := map uid | uid in c.groups :: c.groups[uid].(members := c.groups[uid].members - {friend}))
  }

  function Holders(groups: map<Uid, Group>, friend: Uid): set<Uid> {
    set uid | uid in groups && friend in groups[uid].members
  }

  lemma LeastExists(s: set<Uid>) returns (r: Uid)
    requires s != {}
    ensures r in s && forall v | v in s :: r <= v
    decreases |s|
  {
    var u :| u in s;
    var rest := s - {u};
    r := u;
    if rest != {} {
      var least := LeastExists(rest);
      r := if u <= least then u else least;
    }
    forall v | v in s
      ensures r <= v
    {
      assert v != u ==> v in rest;
    }
  }

  function Least(s: set<Uid>): (r: Uid)
    requires s != {}
    ensures r in s && forall v | v in s :: r <= v
  {
    assert exists r :: r in s && forall v | v in s :: r <= v by {
      var least := LeastExists(s);
    }
    var r :| r in s && forall v | v in s :: r <= v;
    r
  }

  /** The friend leaves the first group that holds it for the target group. */
  function Move(c: Character, friend: Uid, target: Uid): (Character, Outcome) {
    if target !in c.groups then (c, Cancelled(MoveGroupDoesNotExist))
    else if friend in c.groups[target].members then (c, Cancelled(MoveAlreadyInGroup))
    else if Holders(c.groups, friend) == {} then (c, Cancelled(MoveFriendNotFound))
    else
      var holder := c.groups[Least(Holders(c.groups, friend))];
      var left := c.groups[Least(Holders(c.groups, friend)) := holder.(members := holder.members - {friend})];
      (c.(groups := left[target := left[target].(members := left[target].members + {friend})]), Done)
  }

  lemma LargestExists(s: set<Uid>) returns (r: Uid)
    requires s != {}
    ensures r in s && forall v | v in s :: v <= r
    decreases |s|
  {
    var u :| u in s;
    var rest := s - {u};
    r := u;
    if rest != {} {
      var largest := LargestExists(rest);
      r := if u >= largest then u else largest;
    }
    forall v | v in s
      ensures v <= r
    {
      assert v != u ==> v in rest;
    }
  }

  function Largest(s: set<Uid>): (r: Uid)
    requires s != {}
    ensures r in s && forall v | v in s :: v <= r
  {
    assert exists r :: r in s && forall v | v in s :: v <= r by {
      var largest := LargestExists(s);
    }
    var r :| r in s && forall v | v in s :: v <= r;
    r
  }

  /** The group that is added is numbered after the largest one; after the last 32-bit number none is. */
  function AddGroup(c: Character, name: string): (Character, Outcome)
    requires c.groups != map[]
  {
    var next := Add(Largest(c.groups.Keys), 1);
    if next == FRIENDS_CATEGORY_UID || next in c.groups then (c, Added(INVALID_UID))
    else (c.(groups := c.groups[next := Group(next, name, {})]), Added(next))
  }

  function RenameGroup(c: Character, uid: Uid, name: string): (Character, Outcome) {
    if uid !in c.groups then (c, Cancelled(RenameGroupDoesNotExist))
    else if exists g :: g in c.groups && c.groups[g].name == name then (c, Cancelled(RenameDuplicateName))
    else (c.(groups := c.groups[uid := c.groups[uid].(name := name)]), Done)
  }

  /** The members go back to the default group. */
  function DeleteGroup(c: Character, uid: Uid): (Character, Outcome) {
    if uid !in c.groups then (c, Cancelled(DeleteGroupDoesNotExist))
    else if FRIENDS_CATEGORY_UID !in c.groups then (c, Cancelled(DeleteDefaultGroupMissing))
    else
      var friends := c.groups[FRIENDS_CATEGORY_UID];
      var moved := c.groups[FRIENDS_CATEGORY_UID := friends.(members := friends.members + c.groups[uid].members)];
      (c.(groups := moved - {uid}), Done)
  }

  // ---------------------------------------------------------------------------------------------
  // The requests.

  /** A request for a friendship; `target` is the character of the requested name, or 0. */
  function BuddyAdd(w: World, me: Uid, target: Uid, targetName: string): (World, Outcome) {
    if target == INVALID_UID then (w, Ignored)
    else if !Available(w, me) then (w, Threw)
    else if targetName == w.characters[me].name then (w, Ignored)
    else if !Available(w, target) then (w, Threw)
    else if me in w.characters[target].pending then (w, Ignored)
    else
      var c := w.characters[target];
      (With(w, target, c.(pending := c.pending + {me})), Done)
  }

  function BuddyAddReply(w: World, me: Uid, requesting: Uid, accepted: bool): (World, Outcome) {
    if !Available(w, requesting) then (w, Ignored)
    else if !Available(w, me) then (w, Threw)
    else if accepted then
      var v := With(w, requesting, Befriend(w.characters[requesting], me));
      (With(v, me, Befriend(v.characters[me], requesting)), Done)
    else
      var c := w.characters[me];
      (With(w, me, c.(pending := c.pending - {requesting})), Done)
  }

  /** The target is changed first: if the own record is unavailable, half of the deletion has happened. */
  function BuddyDelete(w: World, me: Uid, target: Uid): (World, Outcome) {
    if !Available(w, target) then (w, Cancelled(TargetUnavailable))
    else
      var v := With(w, target, Unfriend(w.characters[target], me));
      if !Available(w, me) then (v, Threw)
      else (With(v, me, Unfriend(v.characters[me], target)), Done)
  }

  function OnOwn(w: World, me: Uid, change: (Character, Outcome)): (World, Outcome)
    requires Available(w, me)
  {
    (With(w, me, change.0), change.1)
  }

  function BuddyMove(w: World, me: Uid, friend: Uid, group: Uid): (World, Outcome) {
    if !Available(w, me) then (w, Threw) else OnOwn(w, me, Move(w.characters[me], friend, group))
  }

  /** A character without any group has no largest group, and the code reads behind its groups. */
  predicate HasGroup(w: World, me: Uid) {
    Available(w, me) ==> w.characters[me].groups != map[]
  }

  function GroupAdd(w: World, me: Uid, name: string): (World, Outcome)
    requires HasGroup(w, me)
  {
    if !Available(w, me) then (w, Threw) else OnOwn(w, me, AddGroup(w.characters[me], name))
  }

  function GroupRename(w: World, me: Uid, uid: Uid, name: string): (World, Outcome) {
    if !Available(w, me) then (w, Threw) else OnOwn(w, me, RenameGroup(w.characters[me], uid, name))
  }

  function GroupDelete(w: World, me: Uid, uid: Uid): (World, Outcome) {
    if !Available(w, me) then (w, Threw) else OnOwn(w, me, DeleteGroup(w.characters[me], uid))
  }

  // ---------------------------------------------------------------------------------------------
  // Friends.

  predicate HasFriend(c: Character, friend: Uid) {
    exists g :: g in c.groups && friend in c.groups[g].members
  }

  ghost predicate SameFriends(c: Character, d: Character) {
    forall uid :: HasFriend(c, uid) <==> HasFriend(d, uid)
  }

  lemma BefriendAdds(c: Character, friend: Uid)
    ensures forall uid :: HasFriend(Befriend(c, friend), uid) <==> HasFriend(c, uid) || uid == friend
  {
    var d := Befriend(c, friend);
    forall uid
      ensures HasFriend(d, uid) <==> HasFriend(c, uid) || uid == friend
    {
      if HasFriend(c, uid) {
        var g :| g in c.groups && uid in c.groups[g].members;
        assert g in d.groups && uid in d.groups[g].members;
      }
      assert friend in d.groups[FRIENDS_CATEGORY_UID].members;
      if HasFriend(d, uid) && uid != friend {
        var g :| g in d.groups && uid in d.groups[g].members;
        assert g in c.groups && uid in c.groups[g].members;
      }
    }
  }

  lemma UnfriendRemoves(c: Character, friend: Uid)
    ensures forall uid :: HasFriend(Unfriend(c, friend), uid) <==> HasFriend(c, uid) && uid != friend
  {
    var d := Unfriend(c, friend);
    forall uid
      ensures HasFriend(d, uid) <==> HasFriend(c, uid) && uid != friend
    {
      if HasFriend(c, uid) && uid != friend {
        var g :| g in c.groups && uid in c.groups[g].members;
        assert g in d.groups && uid in d.groups[g].members;
      }
      if HasFriend(d, uid) {
        var g :| g in d.groups && uid in d.groups[g].members;
        assert g in c.groups && uid in c.groups[g].members;
      }
    }
  }

  /** A move takes the friend to the target group, leaves the other friends where they are and loses none. */
  lemma MoveKeepsFriends(c: Character, friend: Uid, target: Uid)
    ensures
      var (d, outcome) := Move(c, friend, target);
      && SameFriends(c, d) && d.groups.Keys == c.groups.Keys && d.pending == c.pending && d.name == c.name
      && (outcome.Done? <==> target in c.groups && HasFriend(c, friend) && friend !in c.groups[target].members)
      && (outcome.Done? ==> friend in d.groups[target].members)
      && (!outcome.Done? ==> d == c)
      && forall g, uid | g in c.groups && uid != friend :: uid in c.groups[g].members <==> uid in d.groups[g].members
  {
    var (d, outcome) := Move(c, friend, target);
    if HasFriend(c, friend) {
      var g :| g in c.groups && friend in c.groups[g].members;
      assert g in Holders(c.groups, friend);
    }
    if Holders(c.groups, friend) != {} {
      assert Least(Holders(c.groups, friend)) in Holders(c.groups, friend);
    }
    if outcome.Done? {
      assert friend in d.groups[target].members;
      var holder := Least(Holders(c.groups, friend));
      assert friend in c.groups[holder].members;
      forall uid
        ensures HasFriend(c, uid) <==> HasFriend(d, uid)
      {
        if uid != friend {
          assert forall g | g in c.groups :: uid in c.groups[g].members <==> uid in d.groups[g].members;
        }
      }
    }
  }

  /** The new group gets a UID of its own, not 0, exactly as long as the largest is not the last one. */
  lemma AddGroupIsFresh(c: Character, name: string)
    requires c.groups != map[]
    ensures
      var (d, outcome) := AddGroup(c, name);
      && SameFriends(c, d) && d.pending == c.pending && d.name == c.name && outcome.Added?
      && (outcome.groupUid != INVALID_UID <==> WORD - 1 !in c.groups)
      && (if outcome.groupUid != INVALID_UID
          then
            && outcome.groupUid !in c.groups
            && d.groups == c.groups[outcome.groupUid := Group(outcome.groupUid, name, {})]
          else d == c)
  {
    var (d, outcome) := AddGroup(c, name);
    forall uid
      ensures HasFriend(c, uid) <==> HasFriend(d, uid)
    {
      if HasFriend(c, uid) {
        var g :| g in c.groups && uid in c.groups[g].members;
        assert g in d.groups && uid in d.groups[g].members;
      }
    }
  }

  lemma RenameKeepsFriends(c: Character, uid: Uid, name: string)
    ensures
      var (d, outcome) := RenameGroup(c, uid, name);
      && SameFriends(c, d) && d.groups.Keys == c.groups.Keys && d.pending == c.pending && d.name == c.name
      && forall g | g in c.groups ::
           d.groups[g] == if outcome.Done? && g == uid then c.groups[g].(name := name) else c.groups[g]
  {
    var (d, outcome) := RenameGroup(c, uid, name);
    assert forall g | g in c.groups :: d.groups[g].members == c.groups[g].members;
  }

  /** Only in the default group. */
  predicate OnlyDefault(c: Character, friend: Uid) {
    && FRIENDS_CATEGORY_UID in c.groups && friend in c.groups[FRIENDS_CATEGORY_UID].members
    && forall g | g in c.groups && g != FRIENDS_CATEGORY_UID :: friend !in c.groups[g].members
  }

  /** Deleting a group loses exactly the friends that are only in the default group, if it is deleted. */
  lemma DeleteGroupLoses(c: Character, uid: Uid)
    ensures
      var (d, outcome) := DeleteGroup(c, uid);
      && (outcome.Done? <==> uid in c.groups && FRIENDS_CATEGORY_UID in c.groups)
      && d.groups.Keys == (if outcome.Done? then c.groups.Keys - {uid} else c.groups.Keys)
      && d.pending == c.pending && d.name == c.name
      && forall friend ::
           HasFriend(d, friend) <==> HasFriend(c, friend) && !(uid == FRIENDS_CATEGORY_UID && OnlyDefault(c, friend))
  {
    var (d, outcome) := DeleteGroup(c, uid);
    forall friend
      ensures HasFriend(d, friend) <==> HasFriend(c, friend) && !(uid == FRIENDS_CATEGORY_UID && OnlyDefault(c, friend))
    {
      if HasFriend(c, friend) {
        var g :| g in c.groups && friend in c.groups[g].members;
        if outcome.Done? {
          if uid != FRIENDS_CATEGORY_UID {
            var h := if g == uid then FRIENDS_CATEGORY_UID else g;
            assert h in d.groups && friend in d.groups[h].members;
          } else if !OnlyDefault(c, friend) {
            var h :| h in c.groups && h != FRIENDS_CATEGORY_UID && friend in c.groups[h].members;
            assert h in d.groups && friend in d.groups[h].members;
          }
        }
      }
      if HasFriend(d, friend) {
        var g :| g in d.groups && friend in d.groups[g].members;
        assert friend in c.groups[g].members || friend in c.groups[uid].members;
      }
    }
  }

  // ---------------------------------------------------------------------------------------------
  // Group by group, and why a request is refused.

  predicate InGroup(c: Character, g: Uid, friend: Uid) {
    g in c.groups && friend in c.groups[g].members
  }

  /** Whom the default group and no other gains. */
  lemma BefriendGroups(c: Character, friend: Uid)
    ensures
      var d := Befriend(c, friend);
      && d.pending == c.pending - {friend} && d.name == c.name
      && d.groups.Keys == c.groups.Keys + {FRIENDS_CATEGORY_UID}
      && (forall g, uid :: InGroup(d, g, uid) <==> InGroup(c, g, uid) || (g == FRIENDS_CATEGORY_UID && uid == friend))
      && (forall g | g in c.groups :: d.groups[g].name == c.groups[g].name && d.groups[g].uid == c.groups[g].uid)
      && (FRIENDS_CATEGORY_UID !in c.groups ==> d.groups[FRIENDS_CATEGORY_UID].name == "_internal_friends_group_")
  {
  }

  /** The friend leaves the group with the smallest number that holds it, and no other, for the target group. */
  lemma MoveLeavesFirst(c: Character, friend: Uid, target: Uid, holder: Uid)
    requires target in c.groups && !InGroup(c, target, friend)
    requires InGroup(c, holder, friend) && forall g | InGroup(c, g, friend) :: holder <= g
    ensures
      var (d, outcome) := Move(c, friend, target);
      && outcome == Done
      && (forall g :: InGroup(d, g, friend) <==> g == target || (g != holder && InGroup(c, g, friend)))
      && forall g | g in c.groups :: d.groups[g].name == c.groups[g].name && d.groups[g].uid == c.groups[g].uid
  {
    assert holder in Holders(c.groups, friend);
    var first := Least(Holders(c.groups, friend));
    assert InGroup(c, first, friend) && first == holder;
  }

  lemma MoveIsRefusedIff(c: Character, friend: Uid, target: Uid)
    ensures
      var outcome := Move(c, friend, target).1;
      && (outcome == Cancelled(MoveGroupDoesNotExist) <==> target !in c.groups)
      && (outcome == Cancelled(MoveAlreadyInGroup) <==> InGroup(c, target, friend))
      && (outcome == Cancelled(MoveFriendNotFound)
          <==> target in c.groups && !InGroup(c, target, friend) && !HasFriend(c, friend))
  {
    if HasFriend(c, friend) {
      var g :| g in c.groups && friend in c.groups[g].members;
      assert g in Holders(c.groups, friend);
    } else {
      assert Holders(c.groups, friend) == {};
    }
  }

  /** The new group is numbered one after the largest. */
  lemma AddGroupIsNext(c: Character, name: string)
    requires c.groups != map[]
    ensures
      var outcome := AddGroup(c, name).1;
      outcome.Added? && (outcome.groupUid != INVALID_UID ==>
        (forall g | g in c.groups :: g < outcome.groupUid) && outcome.groupUid - 1 in c.groups)
  {
    AddGroupIsFresh(c, name);
  }

  lemma RenameIsDoneIff(c: Character, uid: Uid, name: string)
    ensures
      var outcome := RenameGroup(c, uid, name).1;
      && (outcome == Done <==> uid in c.groups && forall g | g in c.groups :: c.groups[g].name != name)
      && (outcome == Cancelled(RenameGroupDoesNotExist) <==> uid !in c.groups)
      && (outcome == Cancelled(RenameDuplicateName)
          <==> uid in c.groups && exists g :: g in c.groups && c.groups[g].name == name)
  {
  }

  /** The members of a deleted group other than the default one join the default group and no other. */
  lemma DeleteGroupMoves(c: Character, uid: Uid)
    requires uid in c.groups && FRIENDS_CATEGORY_UID in c.groups && uid != FRIENDS_CATEGORY_UID
    ensures
      var (d, outcome) := DeleteGroup(c, uid);
      && outcome == Done
      && forall g, friend ::
           InGroup(d, g, friend)
           <==> g != uid && (InGroup(c, g, friend) || (g == FRIENDS_CATEGORY_UID && InGroup(c, uid, friend)))
  {
  }

  lemma DeleteGroupIsRefusedIff(c: Character, uid: Uid)
    ensures
      var outcome := DeleteGroup(c, uid).1;
      && (outcome == Cancelled(DeleteGroupDoesNotExist) <==> uid !in c.groups)
      && (outcome == Cancelled(DeleteDefaultGroupMissing) <==> uid in c.groups && FRIENDS_CATEGORY_UID !in c.groups)
  {
  }

  /** A request to somebody else is done exactly if both records are there and it is not pending yet. A missing record
      makes it throw; to oneself, to nobody or a second time it is ignored. */
  lemma RequestIsDoneIff(w: World, me: Uid, target: Uid, targetName: string)
    ensures
      var outcome := BuddyAdd(w, me, target, targetName).1;
      && (outcome == Done <==>
            && target != INVALID_UID && Available(w, me) && Available(w, target)
            && targetName != w.characters[me].name && me !in w.characters[target].pending)
      && (outcome == Threw <==>
            target != INVALID_UID
            && (!Available(w, me) || (targetName != w.characters[me].name && !Available(w, target))))
      && outcome in {Done, Threw, Ignored}
  {
  }

  lemma ReplyIsDoneIff(w: World, me: Uid, requesting: Uid, accepted: bool)
    ensures
      var outcome := BuddyAddReply(w, me, requesting, accepted).1;
      && (outcome == Done <==> Available(w, requesting) && Available(w, me))
      && (outcome == Threw <==> Available(w, requesting) && !Available(w, me))
      && (outcome == Ignored <==> !Available(w, requesting))
  {
  }

  lemma DeletionIsDoneIff(w: World, me: Uid, target: Uid)
    ensures
      var outcome := BuddyDelete(w, me, target).1;
      && (outcome == Done <==> Available(w, target) && Available(w, me))
      && (outcome == Threw <==> Available(w, target) && !Available(w, me))
      && (outcome == Cancelled(TargetUnavailable) <==> !Available(w, target))
  {
  }

  /** What one does with the own groups needs the own record, and nothing happens without it. */
  lemma OwnRecordIsNeeded(w: World, me: Uid, friend: Uid, group: Uid, name: string)
    requires HasGroup(w, me)
    ensures BuddyMove(w, me, friend, group).1 == Threw <==> !Available(w, me)
    ensures GroupAdd(w, me, name).1 == Threw <==> !Available(w, me)
    ensures GroupRename(w, me, group, name).1 == Threw <==> !Available(w, me)
    ensures GroupDelete(w, me, group).1 == Threw <==> !Available(w, me)
    ensures !Available(w, me) ==>
      && BuddyMove(w, me, friend, group).0 == w && GroupAdd(w, me, name).0 == w
      && GroupRename(w, me, group, name).0 == w && GroupDelete(w, me, group).0 == w
  {
  }
}
