/** The friend list requests of src/server/messenger/MessengerDirector.cpp, proved against ContactsModel. */
module Messenger {
  import opened Words
  import opened ContactsModel
  import Model = ContactsModel

  class MessengerDirector {
    var characters: map<Uid, Character>
    var available: set<Uid>

    ghost function Now(): World
      reads this
    {
      World(characters, available)
    }

    method HandleBuddyAdd(me: Uid, target: Uid, targetName: string) returns (outcome: Outcome)
      modifies this`characters
      ensures (Now(), outcome) == BuddyAdd(old(Now()), me, target, targetName)
    {
      if target == INVALID_UID {
        return Ignored;
      }
      if me !in available || me !in characters {
        return Threw;
      }
      if targetName == characters[me].name {
        return Ignored;
      }
      if target !in available || target !in characters {
        return Threw;
      }
      var character := characters[target];
      if me in character.pending {
        return Ignored;
      }
      characters := characters[target := character.(pending := character.pending + {me})];
      outcome := Done;
    }

    method AcceptFriendRequest(uid: Uid, friend: Uid)
      requires uid in characters
      modifies this`characters
      ensures characters == old(characters)[uid := Befriend(old(characters)[uid], friend)]
    {
      var character := characters[uid];
      character := character.(pending := character.pending - {friend});
      if FRIENDS_CATEGORY_UID !in character.groups {
        var created := Group(FRIENDS_CATEGORY_UID, INTERNAL_NAME, {});
        character := character.(groups := character.groups[FRIENDS_CATEGORY_UID := created]);
      }
      var group := character.groups[FRIENDS_CATEGORY_UID];
      group := group.(members := group.members + {friend});
      character := character.(groups := character.groups[FRIENDS_CATEGORY_UID := group]);
      assert character.groups == Befriend(characters[uid], friend).groups;
      characters := characters[uid := character];
    }

    method HandleBuddyAddReply(me: Uid, requesting: Uid, accepted: bool) returns (outcome: Outcome)
      modifies this`characters
      ensures (Now(), outcome) == BuddyAddReply(old(Now()), me, requesting, accepted)
    {
      if requesting !in available || requesting !in characters {
        return Ignored;
      }
      if me !in available || me !in characters {
        return Threw;
      }
      if accepted {
        AcceptFriendRequest(requesting, me);
        AcceptFriendRequest(me, requesting);
      } else {
        var character := characters[me];
        characters := characters[me := character.(pending := character.pending - {requesting})];
      }
      outcome := Done;
    }

    /** Goes through all groups of a character. */
    method DeleteFriend(uid: Uid, friend: Uid)
      requires uid in characters
      modifies this`characters
      ensures characters == old(characters)[uid := Unfriend(old(characters)[uid], friend)]
    {
      var groups := characters[uid].groups;
      var rest := groups.Keys;
      while rest != {}
        invariant groups.Keys == old(characters)[uid].groups.Keys && rest <= groups.Keys
        invariant forall g | g in groups ::
          groups[g] ==
          if g in rest then old(characters)[uid].groups[g] else Unfriend(old(characters)[uid], friend).groups[g]
        decreases |rest|
      {
        var g := Least(rest);
        groups := groups[g := groups[g].(members := groups[g].members - {friend})];
        rest := rest - {g};
      }
      assert groups == Unfriend(characters[uid], friend).groups;
      characters := characters[uid := characters[uid].(groups := groups)];
    }

    method HandleBuddyDelete(me: Uid, target: Uid) returns (outcome: Outcome)
      modifies this`characters
      ensures (Now(), outcome) == BuddyDelete(old(Now()), me, target)
    {
      if target !in available || target !in characters {
        return Cancelled(TargetUnavailable);
      }
      DeleteFriend(target, me);
      if me !in available || me !in characters {
        return Threw;
      }
      DeleteFriend(me, target);
      outcome := Done;
    }

    /** Looks for the friend in one group after the other and stops at the first that holds it. */
    method HandleBuddyMove(me: Uid, friend: Uid, target: Uid) returns (outcome: Outcome)
      modifies this`characters
      ensures (Now(), outcome) == BuddyMove(old(Now()), me, friend, target)
    {
      if me !in available || me !in characters {
        return Threw;
      }
      var character := characters[me];
      var groups := character.groups;
      assert old(Now()) == With(old(Now()), me, character);
      if target !in groups {
        return Cancelled(MoveGroupDoesNotExist);
      }
      if friend in groups[target].members {
        return Cancelled(MoveAlreadyInGroup);
      }
      var rest := groups.Keys;
      while rest != {}
        invariant rest <= groups.Keys && Holders(groups, friend) <= rest
        decreases |rest|
      {
        var g := Least(rest);
        if friend in groups[g].members {
          assert g in Holders(groups, friend) && g == Least(Holders(groups, friend));
          groups := groups[g := groups[g].(members := groups[g].members - {friend})];
          groups := groups[target := groups[target].(members := groups[target].members + {friend})];
          characters := characters[me := character.(groups := groups)];
          return Done;
        }
        rest := rest - {g};
      }
      outcome := Cancelled(MoveFriendNotFound);
    }

    method HandleGroupAdd(me: Uid, name: string) returns (outcome: Outcome)
      requires HasGroup(Now(), me)
      modifies this`characters
      ensures (Now(), outcome) == GroupAdd(old(Now()), me, name)
    {
      if me !in available || me !in characters {
        return Threw;
      }
      var character := characters[me];
      assert old(Now()) == With(old(Now()), me, character);
      var next := Add(Largest(character.groups.Keys), 1);
      if next == 0 {
        return Added(INVALID_UID);
      }
      if next in character.groups {
        return Added(INVALID_UID);
      }
      characters := characters[me := character.(groups := character.groups[next := Group(next, name, {})])];
      outcome := Added(next);
    }

    method HandleGroupRename(me: Uid, uid: Uid, name: string) returns (outcome: Outcome)
      modifies this`characters
      ensures (Now(), outcome) == GroupRename(old(Now()), me, uid, name)
    {
      if me !in available || me !in characters {
        return Threw;
      }
      var character := characters[me];
      var groups := character.groups;
      assert old(Now()) == With(old(Now()), me, character);
      if uid !in groups {
        return Cancelled(RenameGroupDoesNotExist);
      }
      var rest := groups.Keys;
      while rest != {}
        invariant rest <= groups.Keys
        invariant forall g | g in groups && g !in rest :: groups[g].name != name
        decreases |rest|
      {
        var g := Least(rest);
        if groups[g].name == name {
          return Cancelled(RenameDuplicateName);
        }
        rest := rest - {g};
      }
      characters := characters[me := character.(groups := groups[uid := groups[uid].(name := name)])];
      outcome := Done;
    }

    /** Moves the members of the group to the default group one by one, then erases the group. */
    method HandleGroupDelete(me: Uid, uid: Uid) returns (outcome: Outcome)
      modifies this`characters
      ensures (Now(), outcome) == GroupDelete(old(Now()), me, uid)
    {
      if me !in available || me !in characters {
        return Threw;
      }
      var character := characters[me];
      assert old(Now()) == With(old(Now()), me, character);
      if uid !in character.groups {
        return Cancelled(DeleteGroupDoesNotExist);
      }
      if FRIENDS_CATEGORY_UID !in character.groups {
        return Cancelled(DeleteDefaultGroupMissing);
      }
      var friends := character.groups[FRIENDS_CATEGORY_UID];
      var members := friends.members;
      var rest := character.groups[uid].members;
      while rest != {}
        invariant rest <= character.groups[uid].members
        invariant members + rest == friends.members + character.groups[uid].members
        decreases |rest|
      {
        var friend := Least(rest);
        members := members + {friend};
        rest := rest - {friend};
      }
      var groups := character.groups[FRIENDS_CATEGORY_UID := friends.(members := members)];
      characters := characters[me := character.(groups := groups - {uid})];
      outcome := Done;
    }
  }
}
