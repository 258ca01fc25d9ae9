/**
 Paging through a mailbox (src/server/messenger/MessengerDirector.cpp). A request names the last mail of
 the previous page, or 0 to begin.
 */
module Mailbox {
  import opened Arithmetic
  import opened Words

  type Uid = nat

  const INVALID_UID: Uid := 0
  const MAX_MAILS_PER_REQUEST: nat := 10

  datatype Mail = Mail(isDeleted: bool)
  datatype Folder = Inbox | Sent | Unrecognised
  datatype Response = Page(mails: seq<Uid>, hasMore: bool) | UnknownFolder | NoResponse

  /** Whether a mail is there and not deleted. */
  predicate Shown(mails: map<Uid, Mail>, uid: Uid) {
    uid in mails && !mails[uid].isDeleted
  }

  function Filtered(box: seq<Uid>, mails: map<Uid, Mail>): seq<Uid> {
    if box == [] then []
    else
      var before := Filtered(box[..|box| - 1], mails);
      if Shown(mails, box[|box| - 1]) then before + [box[|box| - 1]] else before
  }

  /** The index of the first occurrence, or the length. */
  function IndexOf(s: seq<Uid>, uid: Uid): (r: nat)
    ensures r <= |s| && (r < |s| <==> uid in s)
    ensures r < |s| ==> s[r] == uid
    ensures forall i | 0 <= i < r :: s[i] != uid
  {
    if s == [] || s[0] == uid then 0 else 1 + IndexOf(s[1..], uid)
  }

  /** Where the next page begins among the filtered mails: after the last mail, or at the beginning. */
  function Start(shown: seq<Uid>, last: Uid): (r: nat)
    ensures r <= |shown|
  {
    if last != INVALID_UID && last in shown then IndexOf(shown, last) + 1 else 0
  }

  function PageFrom(shown: seq<Uid>, start: nat, count: nat): Response
    requires start <= |shown|
  {
    var n := Min(Min(count, MAX_MAILS_PER_REQUEST), |shown| - start);
    Page(shown[start..start + n], start + n != |shown|)
  }

  function LetterList(box: seq<Uid>, mails: map<Uid, Mail>, last: Uid, count: nat): Response {
    if last != INVALID_UID && last !in box then NoResponse
    else
      var shown := Filtered(box, mails);
      PageFrom(shown, Start(shown, last), count)
  }

  class Character {
    var inbox: seq<Uid>
    var sent: seq<Uid>

    method Find(s: seq<Uid>, uid: Uid) returns (i: nat)
      ensures i == IndexOf(s, uid)
    {
      i := 0;
      while i < |s| && s[i] != uid
        invariant i <= |s| && forall j | 0 <= j < i :: s[j] != uid
      {
        i := i + 1;
      }
    }

    method EraseHidden(box: seq<Uid>, mails: map<Uid, Mail>) returns (shown: seq<Uid>)
      ensures shown == Filtered(box, mails)
    {
      shown := [];
      for i := 0 to |box|
        invariant shown == Filtered(box[..i], mails)
      {
        assert box[..i + 1][..i] == box[..i];
        if box[i] in mails && !mails[box[i]].isDeleted {
          shown := shown + [box[i]];
        }
      }
      assert box[..|box|] == box;
    }

    method HandleLetterList(mails: map<Uid, Mail>, folder: Folder, last: Uid, count: Word) returns (r: Response)
      ensures
        r == match folder
             case Inbox => LetterList(inbox, mails, last, count)
             case Sent => LetterList(sent, mails, last, count)
             case Unrecognised => UnknownFolder
    {
      if !folder.Inbox? && !folder.Sent? {
        return UnknownFolder;
      }
      var box := if folder.Inbox? then inbox else sent;
      if last != INVALID_UID {
        var found := Find(box, last);
        if found == |box| {
          return NoResponse;
        }
      }
      box := EraseHidden(box, mails);
      var start := 0;
      if last != INVALID_UID {
        var found := Find(box, last);
        if found != |box| {
          start := found + 1;
        }
      }
      r := CopyPage(box, start, count);
    }

    method CopyPage(shown: seq<Uid>, start: nat, count: nat) returns (r: Response)
      requires start <= |shown|
      ensures r == PageFrom(shown, start, count)
    {
      var n := Min(Min(count, MAX_MAILS_PER_REQUEST), |shown| - start);
      var page := [];
      for i := 0 to n
        invariant page == shown[start..start + i]
      {
        page := page + [shown[start + i]];
      }
      r := Page(page, start + n != |shown|);
    }
  }

  // ---------------------------------------------------------------------------------------------
  // The filtered mails.

  ghost predicate Distinct(s: seq<Uid>) {
    forall i, j | 0 <= i < j < |s| :: s[i] != s[j]
  }

  lemma {:induction false} FilteredAdds(a: seq<Uid>, b: seq<Uid>, mails: map<Uid, Mail>)
    ensures Filtered(a + b, mails) == Filtered(a, mails) + Filtered(b, mails)
  {
    if b == [] {
      assert a + b == a;
    } else {
      assert (a + b)[..|a + b| - 1] == a + b[..|b| - 1];
      FilteredAdds(a, b[..|b| - 1], mails);
    }
  }

  lemma {:induction false} FilteredIs(box: seq<Uid>, mails: map<Uid, Mail>)
    ensures forall uid ::
      uid in Filtered(box, mails) <==> uid in box && uid in mails && !mails[uid].isDeleted
    ensures Distinct(box) ==> Distinct(Filtered(box, mails))
  {
    if box != [] {
      var before := box[..|box| - 1];
      FilteredIs(before, mails);
      assert forall uid :: uid in box <==> uid in before || uid == box[|box| - 1];
    }
  }

  lemma PageOfRest(before: seq<Uid>, rest: seq<Uid>, count: nat)
    ensures PageFrom(before + rest, |before|, count) == PageFrom(rest, 0, count)
  {
    var n := Min(Min(count, MAX_MAILS_PER_REQUEST), |rest|);
    assert (before + rest)[|before|..|before| + n] == rest[0..n];
  }

  lemma FilteredAround(box: seq<Uid>, mails: map<Uid, Mail>, i: nat)
    requires i < |box| && Shown(mails, box[i])
    ensures Filtered(box, mails) == (Filtered(box[..i], mails) + [box[i]]) + Filtered(box[i + 1..], mails)
  {
    var upTo := box[..i + 1];
    assert box == upTo + box[i + 1..] && upTo[..i] == box[..i];
    FilteredAdds(upTo, box[i + 1..], mails);
  }

  /** A page after a mail that is still shown begins with the shown mails that follow it in the mailbox,
      whatever happened to the others in between. */
  lemma PageFollowsLast(box: seq<Uid>, mails: map<Uid, Mail>, i: nat, count: nat)
    requires Distinct(box) && i < |box| && box[i] != INVALID_UID && Shown(mails, box[i])
    ensures LetterList(box, mails, box[i], count) == PageFrom(Filtered(box[i + 1..], mails), 0, count)
  {
    var shown, before := Filtered(box, mails), Filtered(box[..i], mails) + [box[i]];
    FilteredAround(box, mails, i);
    FilteredIs(box, mails);
    assert shown[|before| - 1] == box[i];
    assert Start(shown, box[i]) == |before|;
    PageOfRest(before, Filtered(box[i + 1..], mails), count);
  }

  /** Paging starts over exactly if the last mail has been hidden in between. */
  lemma StartsOverIff(box: seq<Uid>, mails: map<Uid, Mail>, last: Uid)
    requires last != INVALID_UID && last in box
    ensures Start(Filtered(box, mails), last) == 0 <==> !Shown(mails, last)
  {
    FilteredIs(box, mails);
  }

  /** Where a page begins: after the last mail if it is shown, otherwise at the beginning. */
  ghost predicate BeginsAt(shown: seq<Uid>, last: Uid, start: nat) {
    if last == INVALID_UID || last !in shown then start == 0
    else 0 < start <= |shown| && shown[start - 1] == last && forall j | 0 <= j < start - 1 :: shown[j] != last
  }

  lemma StartBegins(shown: seq<Uid>, last: Uid)
    ensures BeginsAt(shown, last, Start(shown, last))
  {
  }

  /** A page has as many mails as were asked for, at most ten, as long as there are that many, one after the other; and
      there are more exactly if some are left. There is no page exactly if the last mail is not in the mailbox. */
  lemma PageIsExact(box: seq<Uid>, mails: map<Uid, Mail>, last: Uid, count: nat, start: nat)
    requires BeginsAt(Filtered(box, mails), last, start)
    ensures
      var shown, r := Filtered(box, mails), LetterList(box, mails, last, count);
      && start <= |shown| && (r.Page? <==> last == INVALID_UID || last in box) && (r.Page? || r.NoResponse?)
      && (r.Page? ==>
            && |r.mails| == Min(Min(count, 10), |shown| - start)
            && (forall i | 0 <= i < |r.mails| :: r.mails[i] == shown[start + i])
            && (r.hasMore <==> start + |r.mails| < |shown|))
  {
    var shown := Filtered(box, mails);
    StartBegins(shown, last);
    assert start == Start(shown, last);
  }

  // ---------------------------------------------------------------------------------------------
  // Following the pages.

  /** Every mail but the last is a proper one that is not listed before. */
  ghost predicate Walkable(shown: seq<Uid>) {
    && (forall i | 0 <= i < |shown| - 1 :: shown[i] != INVALID_UID)
    && (forall i, j | 0 <= i < j < |shown| - 1 :: shown[i] != shown[j])
  }

  lemma DistinctIsWalkable(box: seq<Uid>, mails: map<Uid, Mail>)
    requires Distinct(box) && INVALID_UID !in box
    ensures Walkable(Filtered(box, mails))
  {
    FilteredIs(box, mails);
  }

  lemma StartIs(shown: seq<Uid>, i: nat)
    requires Walkable(shown) && i < |shown| - 1
    ensures shown[i] in shown && Start(shown, shown[i]) == i + 1
  {
    var first := IndexOf(shown, shown[i]);
    assert shown[i] in shown && shown[first] == shown[i];
    assert first <= i;
  }

  /** Where the client begins: nowhere yet, or after a mail that is shown. */
  ghost predicate CanWalk(box: seq<Uid>, mails: map<Uid, Mail>, last: Uid, counts: nat -> nat) {
    && Walkable(Filtered(box, mails)) && (last == INVALID_UID || last in Filtered(box, mails))
    && Positive(counts)
  }

  ghost predicate Positive(counts: nat -> nat) {
    forall i :: counts(i) >= 1
  }

  lemma PageIs(shown: seq<Uid>, start: nat, count: nat)
    requires start <= |shown|
    ensures
      var Page(page, hasMore) := PageFrom(shown, start, count);
      && |page| <= MAX_MAILS_PER_REQUEST && start + |page| <= |shown|
      && shown[start..] == page + shown[start + |page|..]
      && (hasMore <==> start + |page| < |shown|)
      && (count >= 1 && hasMore ==> page != [] && page[|page| - 1] == shown[start + |page| - 1])
  {
  }

  /** The page that begins at an index is followed by the one that begins after it. */
  ghost predicate IsPage(shown: seq<Uid>, start: nat, page: seq<Uid>, hasMore: bool) {
    && |page| <= MAX_MAILS_PER_REQUEST && start + |page| <= |shown|
    && shown[start..] == page + shown[start + |page|..]
    && (hasMore <==> start + |page| < |shown|)
    && (hasMore ==>
          && page != [] && page[|page| - 1] in shown
          && Start(shown, page[|page| - 1]) == start + |page|)
  }

  lemma PageAfter(shown: seq<Uid>, start: nat, count: nat)
    requires Walkable(shown) && start <= |shown| && count >= 1
    ensures IsPage(shown, start, PageFrom(shown, start, count).mails, PageFrom(shown, start, count).hasMore)
  {
    PageIs(shown, start, count);
    var r := PageFrom(shown, start, count);
    if r.hasMore {
      StartIs(shown, start + |r.mails| - 1);
    }
  }

  lemma ListIs(box: seq<Uid>, mails: map<Uid, Mail>, last: Uid, count: nat)
    requires last == INVALID_UID || last in Filtered(box, mails)
    ensures
      var shown := Filtered(box, mails);
      LetterList(box, mails, last, count) == PageFrom(shown, Start(shown, last), count)
  {
    FilteredIs(box, mails);
  }

  /** The page the client gets, in terms of the shown mails. */
  lemma PageAt(box: seq<Uid>, mails: map<Uid, Mail>, last: Uid, count: nat)
    requires last == INVALID_UID || last in Filtered(box, mails)
    requires Walkable(Filtered(box, mails)) && count >= 1
    ensures
      var r := LetterList(box, mails, last, count);
      r.Page? && IsPage(Filtered(box, mails), Start(Filtered(box, mails), last), r.mails, r.hasMore)
  {
    ListIs(box, mails, last, count);
    PageAfter(Filtered(box, mails), Start(Filtered(box, mails), last), count);
  }

  /** What a client receives that asks for the next page, `counts(k)` mails in the k-th request, until there
      is no more. That this is a function says that it ends. */
  ghost function Walk(box: seq<Uid>, mails: map<Uid, Mail>, last: Uid, counts: nat -> nat, k: nat): seq<seq<Uid>>
    requires CanWalk(box, mails, last, counts)
    decreases |Filtered(box, mails)| - Start(Filtered(box, mails), last)
  {
    var page := LetterList(box, mails, last, counts(k));
    PageAt(box, mails, last, counts(k));
    if !page.hasMore then [page.mails]
    else [page.mails] + Walk(box, mails, page.mails[|page.mails| - 1], counts, k + 1)
  }

  function Concat(pages: seq<seq<Uid>>): seq<Uid> {
    if pages == [] then [] else pages[0] + Concat(pages[1..])
  }

  ghost predicate AreMails(pages: seq<seq<Uid>>, mails: seq<Uid>) {
    && Concat(pages) == mails && |pages| >= 1
    && (forall i | 0 <= i < |pages| :: |pages[i]| <= MAX_MAILS_PER_REQUEST)
    && (forall i | 0 <= i < |pages| - 1 :: pages[i] != [])
  }

  lemma LastPage(page: seq<Uid>)
    requires |page| <= MAX_MAILS_PER_REQUEST
    ensures AreMails([page], page)
  {
    assert Concat([page]) == page + Concat([]);
  }

  lemma OnePageMore(page: seq<Uid>, pages: seq<seq<Uid>>, mails: seq<Uid>)
    requires AreMails(pages, mails) && 0 < |page| <= MAX_MAILS_PER_REQUEST
    ensures AreMails([page] + pages, page + mails)
  {
    assert ([page] + pages)[1..] == pages;
  }

  lemma WalkUnfolds(box: seq<Uid>, mails: map<Uid, Mail>, last: Uid, counts: nat -> nat, k: nat)
    requires CanWalk(box, mails, last, counts)
    ensures
      var r := LetterList(box, mails, last, counts(k));
      && r.Page?
      && if r.hasMore
         then
           && r.mails != [] && CanWalk(box, mails, r.mails[|r.mails| - 1], counts)
           && Walk(box, mails, last, counts, k) ==
                [r.mails] + Walk(box, mails, r.mails[|r.mails| - 1], counts, k + 1)
         else Walk(box, mails, last, counts, k) == [r.mails]
  {
    PageAt(box, mails, last, counts(k));
  }

  lemma WalkStep(box: seq<Uid>, mails: map<Uid, Mail>, last: Uid, counts: nat -> nat, k: nat)
    returns (page: seq<Uid>, rest: seq<Uid>)
    requires CanWalk(box, mails, last, counts)
    ensures LetterList(box, mails, last, counts(k)) == Page(page, rest != []) && |page| <= MAX_MAILS_PER_REQUEST
    ensures
      var shown := Filtered(box, mails);
      && shown[Start(shown, last)..] == page + rest
      && if rest == [] then Walk(box, mails, last, counts, k) == [page]
         else
           && page != [] && CanWalk(box, mails, page[|page| - 1], counts)
           && Start(shown, page[|page| - 1]) > Start(shown, last)
           && shown[Start(shown, page[|page| - 1])..] == rest
           && Walk(box, mails, last, counts, k) == [page] + Walk(box, mails, page[|page| - 1], counts, k + 1)
  {
    PageAt(box, mails, last, counts(k));
    WalkUnfolds(box, mails, last, counts, k);
    page := LetterList(box, mails, last, counts(k)).mails;
    rest := Filtered(box, mails)[Start(Filtered(box, mails), last) + |page|..];
  }

  /** The pages together are exactly the shown mails from there on, each once and in order; no page is
      longer than ten, and only the last may be empty. */
  lemma {:induction false} WalkIsComplete(box: seq<Uid>, mails: map<Uid, Mail>, last: Uid, counts: nat -> nat, k: nat)
    requires CanWalk(box, mails, last, counts)
    ensures
      var shown := Filtered(box, mails);
      AreMails(Walk(box, mails, last, counts, k), shown[Start(shown, last)..])
    decreases |Filtered(box, mails)| - Start(Filtered(box, mails), last)
  {
    var page, rest := WalkStep(box, mails, last, counts, k);
    if rest == [] {
      LastPage(page);
    } else {
      var next := page[|page| - 1];
      WalkIsComplete(box, mails, next, counts, k + 1);
      OnePageMore(page, Walk(box, mails, next, counts, k + 1), rest);
    }
  }

  /** A client that reads a mailbox from the beginning sees every shown mail. */
  lemma WalkShowsTheMailbox(box: seq<Uid>, mails: map<Uid, Mail>, counts: nat -> nat)
    requires Walkable(Filtered(box, mails)) && Positive(counts)
    ensures AreMails(Walk(box, mails, INVALID_UID, counts, 0), Filtered(box, mails))
  {
    WalkIsComplete(box, mails, INVALID_UID, counts, 0);
    assert Filtered(box, mails)[0..] == Filtered(box, mails);
  }

  // ---------------------------------------------------------------------------------------------
  // Which mailboxes can be walked.

  /** Following the pages from the k-th request on, one is the last within `n` more. */
  ghost predicate EndsWithin(box: seq<Uid>, mails: map<Uid, Mail>, last: Uid, counts: nat -> nat, k: nat, n: nat)
    decreases n
  {
    var r := LetterList(box, mails, last, counts(k));
    && r.Page?
    && (r.hasMore ==> n > 0 && r.mails != [] && EndsWithin(box, mails, r.mails[|r.mails| - 1], counts, k + 1, n - 1))
  }

  ghost predicate Ends(box: seq<Uid>, mails: map<Uid, Mail>, counts: nat -> nat) {
    exists n :: EndsWithin(box, mails, INVALID_UID, counts, 0, n)
  }

  lemma EndsAfter(
    box: seq<Uid>, mails: map<Uid, Mail>, last: Uid, counts: nat -> nat, k: nat, n: nat,
    page: seq<Uid>, hasMore: bool)
    requires LetterList(box, mails, last, counts(k)) == Page(page, hasMore)
    requires hasMore ==>
      n > 0 && page != [] && EndsWithin(box, mails, page[|page| - 1], counts, k + 1, n - 1)
    ensures EndsWithin(box, mails, last, counts, k, n)
  {
  }

  lemma {:induction false} WalkEnds(
    box: seq<Uid>, mails: map<Uid, Mail>, last: Uid, counts: nat -> nat, k: nat, n: nat)
    requires CanWalk(box, mails, last, counts) && |Filtered(box, mails)| - Start(Filtered(box, mails), last) <= n
    ensures EndsWithin(box, mails, last, counts, k, n)
    decreases n
  {
    var page, rest := WalkStep(box, mails, last, counts, k);
    if rest != [] {
      WalkEnds(box, mails, page[|page| - 1], counts, k + 1, n - 1);
    }
    EndsAfter(box, mails, last, counts, k, n, page, rest != []);
  }

  lemma OneByOne(shown: seq<Uid>, start: nat)
    requires start < |shown| - 1
    ensures PageFrom(shown, start, 1) == Page([shown[start]], true)
  {
  }

  lemma MailBefore(box: seq<Uid>, mails: map<Uid, Mail>, last: Uid, i: nat) returns (next: Uid)
    requires
      var shown := Filtered(box, mails);
      && i < |shown| - 1 && (shown[i] == INVALID_UID || IndexOf(shown, shown[i]) < i)
      && (last == INVALID_UID || last in shown) && Start(shown, last) <= i
    ensures LetterList(box, mails, last, 1) == Page([next], true)
    ensures
      var shown := Filtered(box, mails);
      next in shown && Start(shown, next) <= i
  {
    var shown := Filtered(box, mails);
    var start := Start(shown, last);
    ListIs(box, mails, last, 1);
    OneByOne(shown, start);
    next := shown[start];
    StartAtMost(shown, start);
  }

  lemma StartAtMost(shown: seq<Uid>, i: nat)
    requires i < |shown|
    ensures shown[i] in shown && Start(shown, shown[i]) <= i + 1
  {
    assert shown[i] in shown;
    assert IndexOf(shown, shown[i]) <= i;
  }

  /** One mail at a time, the walk never gets past a mail that is listed before or is no proper one. */
  lemma {:induction false} WalkIsStuck(box: seq<Uid>, mails: map<Uid, Mail>, last: Uid, i: nat, k: nat, n: nat)
    requires
      var shown := Filtered(box, mails);
      && i < |shown| - 1 && (shown[i] == INVALID_UID || IndexOf(shown, shown[i]) < i)
      && (last == INVALID_UID || last in shown) && Start(shown, last) <= i
    ensures !EndsWithin(box, mails, last, _ => 1, k, n)
    decreases n
  {
    var next := MailBefore(box, mails, last, i);
    if n > 0 {
      WalkIsStuck(box, mails, next, i, k + 1, n - 1);
    }
  }

  /** Following the pages ends for all positive counts exactly if every shown mail but the last is a proper
      one that is not shown before. */
  lemma WalkEndsIff(box: seq<Uid>, mails: map<Uid, Mail>)
    ensures (forall counts | Positive(counts) :: Ends(box, mails, counts)) <==> Walkable(Filtered(box, mails))
  {
    var shown := Filtered(box, mails);
    if Walkable(shown) {
      forall counts | Positive(counts)
        ensures Ends(box, mails, counts)
      {
        WalkEnds(box, mails, INVALID_UID, counts, 0, |shown|);
      }
    } else {
      var i :| 0 <= i < |shown| - 1 && (shown[i] == INVALID_UID || IndexOf(shown, shown[i]) != i);
      FirstIsEarliest(shown, i);
      var ones: nat -> nat := _ => 1;
      forall n
        ensures !EndsWithin(box, mails, INVALID_UID, ones, 0, n)
      {
        WalkIsStuck(box, mails, INVALID_UID, i, 0, n);
      }
      assert Positive(ones) && !Ends(box, mails, ones);
    }
  }

  lemma FirstIsEarliest(shown: seq<Uid>, i: nat)
    requires i < |shown|
    ensures IndexOf(shown, shown[i]) <= i
  {
  }

  /** Asking for no mails gets nowhere: an empty page that says there is more, as long as there is. */
  lemma NoneGetsNowhere(box: seq<Uid>, mails: map<Uid, Mail>, last: Uid)
    requires last == INVALID_UID || last in box
    ensures
      var shown := Filtered(box, mails);
      LetterList(box, mails, last, 0) == Page([], Start(shown, last) < |shown|)
  {
  }

  /** A mail that is listed twice stops the walk: the page after it is the same page again. */
  lemma DuplicatesRepeat()
    ensures
      var mails := map[1 := Mail(false), 2 := Mail(false)];
      LetterList([1, 1, 2], mails, 1, 1) == LetterList([1, 1, 2], mails, 0, 1) == Page([1], true)
  {
    var mails := map[1 := Mail(false), 2 := Mail(false)];
    AllShown([1, 1, 2], mails);
    assert IndexOf([1, 1, 2], 1) == 0;
  }

  lemma {:induction false} AllShown(box: seq<Uid>, mails: map<Uid, Mail>)
    requires forall i | 0 <= i < |box| :: Shown(mails, box[i])
    ensures Filtered(box, mails) == box
  {
    if box != [] {
      AllShown(box[..|box| - 1], mails);
    }
  }
}
