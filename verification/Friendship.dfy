/** Friendship over whole runs of requests: what each request does to it, and when it stays mutual. */
module Friendship {
  import opened ContactsModel
  import opened Words

  datatype Op =
    | Residency(available: set<Uid>)
    | Request(me: Uid, target: Uid, targetName: string)
    | Reply(me: Uid, requesting: Uid, accepted: bool)
    | Delete(me: Uid, target: Uid)
    | MoveFriend(me: Uid, friend: Uid, group: Uid)
    | NewGroup(me: Uid, name: string)
    | NameGroup(me: Uid, group: Uid, name: string)
    | DropGroup(me: Uid, group: Uid)

  /** Records come and go at any time. */
  predicate Legal(w: World, op: Op) {
    op.NewGroup? ==> HasGroup(w, op.me)
  }

  function Step(w: World, op: Op): World
    requires Legal(w, op)
  {
    match op
    case Residency(available) => w.(available := available)
    case Request(me, target, name) => BuddyAdd(w, me, target, name).0
    case Reply(me, requesting, accepted) => BuddyAddReply(w, me, requesting, accepted).0
    case Delete(me, target) => BuddyDelete(w, me, target).0
    case MoveFriend(me, friend, group) => BuddyMove(w, me, friend, group).0
    case NewGroup(me, name) => GroupAdd(w, me, name).0
    case NameGroup(me, group, name) => GroupRename(w, me, group, name).0
    case DropGroup(me, group) => GroupDelete(w, me, group).0
  }

  function Run(w: World, ops: seq<Op>): World
    requires LegalRun(w, ops)
    decreases |ops|
  {
    if ops == [] then w else Run(Step(w, ops[0]), ops[1..])
  }

  predicate LegalRun(w: World, ops: seq<Op>)
    decreases |ops|
  {
    ops != [] ==> Legal(w, ops[0]) && LegalRun(Step(w, ops[0]), ops[1..])
  }

  /** Whether `a` has `b` on its list. */
  predicate Lists(w: World, a: Uid, b: Uid) {
    a in w.characters && HasFriend(w.characters[a], b)
  }

  ghost predicate Mutual(w: World) {
    forall a, b | a in w.characters && b in w.characters :: Lists(w, a, b) <==> Lists(w, b, a)
  }

  /** A reply that is accepted while both records are there, from either side. */
  predicate Accepts(w: World, op: Op, a: Uid, b: Uid) {
    (op == Reply(a, b, true) || op == Reply(b, a, true)) && Available(w, a) && Available(w, b)
  }

  /** A request that takes `b` off the list of `a`, if it is there. A deletion removes the other side first, the
      deletion of the default group whom only it holds. */
  predicate Removes(w: World, op: Op, a: Uid, b: Uid) {
    match op
    case Delete(me, target) =>
      && Available(w, target)
      && ((a == target && b == me) || (Available(w, me) && a == me && b == target))
    case DropGroup(me, group) =>
      Available(w, me) && a == me && group == FRIENDS_CATEGORY_UID && OnlyDefault(w.characters[me], b)
    case _ => false
  }

  /** What a request means for who lists whom, in terms of the lists before it. */
  predicate ListsAfter(w: World, op: Op, a: Uid, b: Uid) {
    (Lists(w, a, b) && !Removes(w, op, a, b)) || Accepts(w, op, a, b)
  }

  lemma StepChangesLists(w: World, op: Op)
    requires Legal(w, op)
    ensures Step(w, op).characters.Keys == w.characters.Keys
    ensures forall a, b :: Lists(Step(w, op), a, b) <==> ListsAfter(w, op, a, b)
  {
    match op
    case Residency(available) =>
    case Request(me, target, name) =>
      RequestChangesNoList(w, me, target, name);
    case Reply(me, requesting, accepted) =>
      ReplyChangesLists(w, me, requesting, accepted);
    case Delete(me, target) =>
      DeleteChangesLists(w, me, target);
    case MoveFriend(me, friend, group) =>
      if Available(w, me) {
        MoveKeepsFriends(w.characters[me], friend, group);
      }
    case NewGroup(me, name) =>
      if Available(w, me) {
        AddGroupIsFresh(w.characters[me], name);
      }
    case NameGroup(me, group, name) =>
      if Available(w, me) {
        RenameKeepsFriends(w.characters[me], group, name);
      }
    case DropGroup(me, group) =>
      if Available(w, me) {
        DeleteGroupLoses(w.characters[me], group);
      }
  }

  lemma PendingIsNoList(c: Character, pending: set<Uid>)
    ensures SameFriends(c, c.(pending := pending))
  {
  }

  lemma RequestChangesNoList(w: World, me: Uid, target: Uid, name: string)
    ensures
      var v := BuddyAdd(w, me, target, name).0;
      v.characters.Keys == w.characters.Keys && forall a, b :: Lists(v, a, b) <==> Lists(w, a, b)
  {
    if target in w.characters {
      PendingIsNoList(w.characters[target], w.characters[target].pending + {me});
    }
  }

  lemma ReplyChangesLists(w: World, me: Uid, requesting: Uid, accepted: bool)
    ensures
      var v := BuddyAddReply(w, me, requesting, accepted).0;
      && v.characters.Keys == w.characters.Keys
      && forall a, b :: Lists(v, a, b) <==> ListsAfter(w, Reply(me, requesting, accepted), a, b)
  {
    if Available(w, me) && Available(w, requesting) {
      if accepted {
        var v := With(w, requesting, Befriend(w.characters[requesting], me));
        BefriendAdds(w.characters[requesting], me);
        BefriendAdds(v.characters[me], requesting);
      } else {
        PendingIsNoList(w.characters[me], w.characters[me].pending - {requesting});
      }
    }
  }

  lemma DeleteChangesLists(w: World, me: Uid, target: Uid)
    ensures
      var v := BuddyDelete(w, me, target).0;
      && v.characters.Keys == w.characters.Keys
      && forall a, b :: Lists(v, a, b) <==> ListsAfter(w, Delete(me, target), a, b)
  {
    if Available(w, target) {
      var v := With(w, target, Unfriend(w.characters[target], me));
      UnfriendRemoves(w.characters[target], me);
      if Available(w, me) {
        UnfriendRemoves(v.characters[me], target);
      }
    }
  }

  // ---------------------------------------------------------------------------------------------
  // Pending requests.

  /** Whether a request of `b` waits at `a`. */
  predicate Pends(w: World, a: Uid, b: Uid) {
    a in w.characters && b in w.characters[a].pending
  }

  /** A request of `b` to `a`, both of whose records are there, by a name that is not that of `b`. */
  predicate Asks(w: World, op: Op, a: Uid, b: Uid) {
    && op.Request? && op.target == a && op.me == b && a != INVALID_UID
    && Available(w, a) && Available(w, b) && op.targetName != w.characters[b].name
  }

  /** A reply, while both records are there: of `a` to `b`, or an accepting one of `b` to `a`. */
  predicate Answers(w: World, op: Op, a: Uid, b: Uid) {
    && op.Reply? && Available(w, a) && Available(w, b)
    && ((op.me == a && op.requesting == b) || (op.accepted && op.me == b && op.requesting == a))
  }

  predicate PendsAfter(w: World, op: Op, a: Uid, b: Uid) {
    (Pends(w, a, b) && !Answers(w, op, a, b)) || Asks(w, op, a, b)
  }

  lemma ReplyChangesPending(w: World, me: Uid, requesting: Uid, accepted: bool)
    ensures
      var v := BuddyAddReply(w, me, requesting, accepted).0;
      forall a, b :: Pends(v, a, b) <==> PendsAfter(w, Reply(me, requesting, accepted), a, b)
  {
  }

  lemma DeleteChangesNoPending(w: World, me: Uid, target: Uid)
    ensures
      var v := BuddyDelete(w, me, target).0;
      forall a, b :: Pends(v, a, b) <==> Pends(w, a, b)
  {
  }

  /** What every request does to who waits where: only requests and replies change it. */
  lemma StepChangesPending(w: World, op: Op)
    requires Legal(w, op)
    ensures forall a, b :: Pends(Step(w, op), a, b) <==> PendsAfter(w, op, a, b)
  {
    match op
    case Residency(available) =>
    case Request(me, target, name) =>
    case Reply(me, requesting, accepted) => ReplyChangesPending(w, me, requesting, accepted);
    case Delete(me, target) => DeleteChangesNoPending(w, me, target);
    case MoveFriend(me, friend, group) =>
      if Available(w, me) {
        MoveKeepsFriends(w.characters[me], friend, group);
      }
    case NewGroup(me, name) =>
      if Available(w, me) {
        AddGroupIsFresh(w.characters[me], name);
      }
    case NameGroup(me, group, name) =>
      if Available(w, me) {
        RenameKeepsFriends(w.characters[me], group, name);
      }
    case DropGroup(me, group) =>
      if Available(w, me) {
        DeleteGroupLoses(w.characters[me], group);
      }
  }

  predicate NeverAnswered(w: World, ops: seq<Op>, a: Uid, b: Uid)
    requires LegalRun(w, ops)
    decreases |ops|
  {
    ops != [] ==> !Answers(w, ops[0], a, b) && NeverAnswered(Step(w, ops[0]), ops[1..], a, b)
  }

  /** At some point asked and not answered after that. */
  predicate AskedInVain(w: World, ops: seq<Op>, a: Uid, b: Uid)
    requires LegalRun(w, ops)
    decreases |ops|
  {
    && ops != []
    && (|| (Asks(w, ops[0], a, b) && NeverAnswered(Step(w, ops[0]), ops[1..], a, b))
        || AskedInVain(Step(w, ops[0]), ops[1..], a, b))
  }

  /** After a run a request waits exactly if it did before and was not answered, or it was made in the run and not
      answered after that. */
  lemma {:induction false} PendingAfterRunIff(w: World, ops: seq<Op>, a: Uid, b: Uid)
    requires LegalRun(w, ops)
    ensures Pends(Run(w, ops), a, b)
      <==> (Pends(w, a, b) && NeverAnswered(w, ops, a, b)) || AskedInVain(w, ops, a, b)
    decreases |ops|
  {
    if ops != [] {
      StepChangesPending(w, ops[0]);
      assert Pends(Step(w, ops[0]), a, b) <==> PendsAfter(w, ops[0], a, b);
      PendingAfterRunIff(Step(w, ops[0]), ops[1..], a, b);
    }
  }

  // ---------------------------------------------------------------------------------------------
  // Friendship arises.

  /** An accepted reply makes two characters list each other exactly if both records are there, or they did
      before. Whether anybody ever sent a request makes no difference. */
  lemma ReplyBefriendsIff(w: World, me: Uid, requesting: Uid)
    ensures
      var v := Step(w, Reply(me, requesting, true));
      (Lists(v, me, requesting) && Lists(v, requesting, me))
      <==>
        || (Available(w, me) && Available(w, requesting))
        || (Lists(w, me, requesting) && Lists(w, requesting, me))
  {
    StepChangesLists(w, Reply(me, requesting, true));
  }

  /** The same up to the pending lists. */
  ghost predicate SameButPending(v: World, w: World) {
    && v.available == w.available && v.characters.Keys == w.characters.Keys
    && forall a | a in w.characters :: v.characters[a].(pending := {}) == w.characters[a].(pending := {})
  }

  /** What any request does to the lists does not depend on who is pending. */
  lemma PendingIsIrrelevant(v: World, w: World, op: Op)
    requires SameButPending(v, w) && Legal(v, op) && Legal(w, op)
    ensures forall a, b :: Lists(Step(v, op), a, b) <==> Lists(Step(w, op), a, b)
  {
    StepChangesLists(v, op);
    StepChangesLists(w, op);
    forall a | a in w.characters
      ensures v.characters[a].groups == w.characters[a].groups
    {
      assert v.characters[a].(pending := {}) == w.characters[a].(pending := {});
    }
    forall a, b
      ensures ListsAfter(v, op, a, b) <==> ListsAfter(w, op, a, b)
    {
      assert Lists(v, a, b) <==> Lists(w, a, b);
    }
  }

  /** So any two characters whose records are there become friends in a run without any request. */
  lemma FriendsWithoutRequest(w: World, me: Uid, other: Uid) returns (ops: seq<Op>)
    requires Available(w, me) && Available(w, other)
    ensures LegalRun(w, ops) && forall i | 0 <= i < |ops| :: !ops[i].Request?
    ensures Lists(Run(w, ops), me, other) && Lists(Run(w, ops), other, me)
  {
    ops := [Reply(me, other, true)];
    assert ops[1..] == [];
    ReplyBefriendsIff(w, me, other);
  }

  /** What it does take is an accepted reply: a character that somebody lists after a run and
      did not list before has accepted, or was accepted, while both records were there. */
  lemma {:induction false} NewFriendTakesReply(w: World, ops: seq<Op>, a: Uid, b: Uid) returns (i: nat)
    requires LegalRun(w, ops) && !Lists(w, a, b) && Lists(Run(w, ops), a, b)
    ensures i < |ops| && LegalRun(w, ops[..i]) && Accepts(Run(w, ops[..i]), ops[i], a, b)
    decreases |ops|
  {
    var v := Step(w, ops[0]);
    StepChangesLists(w, ops[0]);
    if Lists(v, a, b) {
      assert ListsAfter(w, ops[0], a, b);
      i := 0;
      assert ops[..0] == [];
    } else {
      var k := NewFriendTakesReply(v, ops[1..], a, b);
      i := k + 1;
      assert ops[..i][1..] == ops[1..][..k];
    }
  }

  predicate NeverRemoved(w: World, ops: seq<Op>, a: Uid, b: Uid)
    requires LegalRun(w, ops)
    decreases |ops|
  {
    ops != [] ==> !Removes(w, ops[0], a, b) && NeverRemoved(Step(w, ops[0]), ops[1..], a, b)
  }

  /** At some point accepted and never removed after that. */
  predicate AcceptedForGood(w: World, ops: seq<Op>, a: Uid, b: Uid)
    requires LegalRun(w, ops)
    decreases |ops|
  {
    && ops != []
    && (|| (Accepts(w, ops[0], a, b) && NeverRemoved(Step(w, ops[0]), ops[1..], a, b))
        || AcceptedForGood(Step(w, ops[0]), ops[1..], a, b))
  }

  /** A character lists another after a run exactly if it did before and nothing in the run removes it, or it is
      accepted at some point and nothing removes it after that. */
  lemma {:induction false} ListedAfterRunIff(w: World, ops: seq<Op>, a: Uid, b: Uid)
    requires LegalRun(w, ops)
    ensures Lists(Run(w, ops), a, b)
      <==> (Lists(w, a, b) && NeverRemoved(w, ops, a, b)) || AcceptedForGood(w, ops, a, b)
    decreases |ops|
  {
    if ops != [] {
      StepChangesLists(w, ops[0]);
      assert Lists(Step(w, ops[0]), a, b) <==> ListsAfter(w, ops[0], a, b);
      ListedAfterRunIff(Step(w, ops[0]), ops[1..], a, b);
    }
  }

  // ---------------------------------------------------------------------------------------------
  // Friendship stays mutual.

  /** The two requests that can break it: a deletion by a character whose own record is not there, and the
      deletion of the default group while it alone holds somebody else. */
  ghost predicate Harmless(w: World, op: Op) {
    match op
    case Delete(me, target) => Available(w, me) || !Available(w, target) || me !in w.characters || !Lists(w, target, me)
    case DropGroup(me, group) =>
      Available(w, me) && group == FRIENDS_CATEGORY_UID ==>
        forall b | b in w.characters && OnlyDefault(w.characters[me], b) :: b == me
    case _ => true
  }

  lemma StepStaysMutualIff(w: World, op: Op)
    requires Legal(w, op) && Mutual(w)
    ensures Mutual(Step(w, op)) <==> Harmless(w, op)
  {
    var v := Step(w, op);
    StepChangesLists(w, op);
    if Harmless(w, op) {
      forall a, b | a in v.characters && b in v.characters
        ensures Lists(v, a, b) <==> Lists(v, b, a)
      {
        assert Lists(w, a, b) <==> Lists(w, b, a);
      }
    } else if op.Delete? {
      assert Lists(w, op.me, op.target);
      assert Lists(v, op.me, op.target) && !Lists(v, op.target, op.me);
    } else {
      var b :| b in w.characters && OnlyDefault(w.characters[op.me], b) && b != op.me;
      assert Lists(w, op.me, b) && Lists(w, b, op.me);
      assert !Lists(v, op.me, b) && Lists(v, b, op.me);
    }
  }

  /** Who deletes a friend is there, and nobody deletes the default group. */
  predicate UsualRun(w: World, ops: seq<Op>)
    decreases |ops|
  {
    ops != [] ==>
      && Usual(w, ops[0]) && Legal(w, ops[0]) && UsualRun(Step(w, ops[0]), ops[1..])
  }

  predicate Usual(w: World, op: Op) {
    (op.Delete? ==> Available(w, op.me)) && (op.DropGroup? ==> op.group != FRIENDS_CATEGORY_UID)
  }

  /** A character has its default group, and every group knows its own number. */
  ghost predicate Grouped(c: Character) {
    FRIENDS_CATEGORY_UID in c.groups && forall g | g in c.groups :: c.groups[g].uid == g
  }

  ghost predicate WellGrouped(w: World) {
    forall a | a in w.characters :: Grouped(w.characters[a])
  }

  lemma OwnChangesKeepGrouped(c: Character, friend: Uid, group: Uid, name: string)
    requires Grouped(c)
    ensures Grouped(Befriend(c, friend)) && Grouped(Unfriend(c, friend)) && Grouped(Move(c, friend, group).0)
    ensures Grouped(AddGroup(c, name).0) && Grouped(RenameGroup(c, group, name).0)
    ensures group != FRIENDS_CATEGORY_UID ==> Grouped(DeleteGroup(c, group).0)
  {
  }

  lemma WithKeepsWellGrouped(w: World, a: Uid, c: Character)
    requires WellGrouped(w) && Grouped(c)
    ensures WellGrouped(With(w, a, c))
  {
  }

  lemma RequestKeepsWellGrouped(w: World, me: Uid, target: Uid, name: string)
    requires WellGrouped(w)
    ensures WellGrouped(BuddyAdd(w, me, target, name).0)
  {
    if target in w.characters {
      var c := w.characters[target];
      WithKeepsWellGrouped(w, target, c.(pending := c.pending + {me}));
    }
  }

  lemma ReplyKeepsWellGrouped(w: World, me: Uid, requesting: Uid, accepted: bool)
    requires WellGrouped(w)
    ensures WellGrouped(BuddyAddReply(w, me, requesting, accepted).0)
  {
    if Available(w, me) && Available(w, requesting) {
      if accepted {
        var v := With(w, requesting, Befriend(w.characters[requesting], me));
        OwnChangesKeepGrouped(w.characters[requesting], me, 0, "");
        WithKeepsWellGrouped(w, requesting, Befriend(w.characters[requesting], me));
        OwnChangesKeepGrouped(v.characters[me], requesting, 0, "");
        WithKeepsWellGrouped(v, me, Befriend(v.characters[me], requesting));
      } else {
        var c := w.characters[me];
        WithKeepsWellGrouped(w, me, c.(pending := c.pending - {requesting}));
      }
    }
  }

  lemma DeleteKeepsWellGrouped(w: World, me: Uid, target: Uid)
    requires WellGrouped(w)
    ensures WellGrouped(BuddyDelete(w, me, target).0)
  {
    if Available(w, target) {
      var v := With(w, target, Unfriend(w.characters[target], me));
      OwnChangesKeepGrouped(w.characters[target], me, 0, "");
      WithKeepsWellGrouped(w, target, Unfriend(w.characters[target], me));
      if Available(w, me) {
        OwnChangesKeepGrouped(v.characters[me], target, 0, "");
        WithKeepsWellGrouped(v, me, Unfriend(v.characters[me], target));
      }
    }
  }

  lemma OwnRequestsKeepWellGrouped(w: World, me: Uid, friend: Uid, group: Uid, name: string)
    requires WellGrouped(w) && HasGroup(w, me)
    ensures WellGrouped(BuddyMove(w, me, friend, group).0) && WellGrouped(GroupAdd(w, me, name).0)
    ensures WellGrouped(GroupRename(w, me, group, name).0)
    ensures group != FRIENDS_CATEGORY_UID ==> WellGrouped(GroupDelete(w, me, group).0)
  {
    if Available(w, me) {
      var c := w.characters[me];
      OwnChangesKeepGrouped(c, friend, group, name);
      WithKeepsWellGrouped(w, me, Move(c, friend, group).0);
      WithKeepsWellGrouped(w, me, AddGroup(c, name).0);
      WithKeepsWellGrouped(w, me, RenameGroup(c, group, name).0);
      if group != FRIENDS_CATEGORY_UID {
        WithKeepsWellGrouped(w, me, DeleteGroup(c, group).0);
      }
    }
  }

  lemma StepKeepsWellGrouped(w: World, op: Op)
    requires Legal(w, op) && WellGrouped(w)
    requires op.DropGroup? ==> op.group != FRIENDS_CATEGORY_UID
    ensures WellGrouped(Step(w, op))
  {
    match op
    case Residency(available) =>
    case Request(me, target, name) => RequestKeepsWellGrouped(w, me, target, name);
    case Reply(me, requesting, accepted) => ReplyKeepsWellGrouped(w, me, requesting, accepted);
    case Delete(me, target) => DeleteKeepsWellGrouped(w, me, target);
    case MoveFriend(me, friend, group) => OwnRequestsKeepWellGrouped(w, me, friend, group, "");
    case NewGroup(me, name) => OwnRequestsKeepWellGrouped(w, me, 0, 1, name);
    case NameGroup(me, group, name) => OwnRequestsKeepWellGrouped(w, me, 0, group, name);
    case DropGroup(me, group) => OwnRequestsKeepWellGrouped(w, me, 0, group, "");
  }

  /** No step of the run is one of the two that can break the friendship. */
  ghost predicate HarmlessRun(w: World, ops: seq<Op>)
    requires LegalRun(w, ops)
    decreases |ops|
  {
    ops != [] ==> Harmless(w, ops[0]) && HarmlessRun(Step(w, ops[0]), ops[1..])
  }

  ghost predicate AlwaysMutual(w: World, ops: seq<Op>)
    requires LegalRun(w, ops)
    decreases |ops|
  {
    Mutual(w) && (ops != [] ==> AlwaysMutual(Step(w, ops[0]), ops[1..]))
  }

  /** Friendship is mutual throughout a run exactly if every step of it is harmless. */
  lemma {:induction false} RunStaysMutualIff(w: World, ops: seq<Op>)
    requires Mutual(w) && LegalRun(w, ops)
    ensures AlwaysMutual(w, ops) <==> HarmlessRun(w, ops)
    decreases |ops|
  {
    if ops != [] {
      StepStaysMutualIff(w, ops[0]);
      if Harmless(w, ops[0]) {
        RunStaysMutualIff(Step(w, ops[0]), ops[1..]);
      }
    }
  }

  /** After any run of harmless steps friendship is mutual. */
  lemma {:induction false} RunStaysMutual(w: World, ops: seq<Op>)
    requires Mutual(w) && LegalRun(w, ops) && HarmlessRun(w, ops)
    ensures Mutual(Run(w, ops))
    decreases |ops|
  {
    if ops != [] {
      StepStaysMutualIff(w, ops[0]);
      RunStaysMutual(Step(w, ops[0]), ops[1..]);
    }
  }

  /** A run in which who deletes a friend is there and nobody deletes the default group is harmless, no
      character ever loses its default group in it, and so adding a group is always defined. */
  lemma {:induction false} UsualRunIsHarmless(w: World, ops: seq<Op>)
    requires Mutual(w) && WellGrouped(w) && UsualRun(w, ops)
    ensures LegalRun(w, ops) && HarmlessRun(w, ops) && Mutual(Run(w, ops)) && WellGrouped(Run(w, ops))
    decreases |ops|
  {
    if ops != [] {
      StepStaysMutualIff(w, ops[0]);
      StepKeepsWellGrouped(w, ops[0]);
      UsualRunIsHarmless(Step(w, ops[0]), ops[1..]);
    }
  }

  lemma WellGroupedIsLegal(w: World, op: Op)
    requires WellGrouped(w)
    ensures Legal(w, op)
    ensures op.DropGroup? ==> GroupDelete(w, op.me, op.group).1 != Cancelled(DeleteDefaultGroupMissing)
  {
  }

  /** A deletion by a character whose record is not there leaves the friendship one-sided. */
  lemma HalfDeletion()
    ensures
      var one := Character("a", {}, map[0 := Group(0, "", {2})]);
      var two := Character("b", {}, map[0 := Group(0, "", {1})]);
      var w := World(map[1 := one, 2 := two], {2});
      var v := Step(w, Delete(1, 2));
      Mutual(w) && Lists(v, 1, 2) && !Lists(v, 2, 1)
  {
    var one := Character("a", {}, map[0 := Group(0, "", {2})]);
    var two := Character("b", {}, map[0 := Group(0, "", {1})]);
    var w := World(map[1 := one, 2 := two], {2});
    assert 2 in one.groups[0].members && 1 in two.groups[0].members;
    StepChangesLists(w, Delete(1, 2));
  }
}
