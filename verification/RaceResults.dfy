/**
 The end of a race (src/server/race/RaceInstance.cpp): the winning team, the order of the published
 scores and the new master of the room. Racers are listed in the order of their character UIDs.
 */
module RaceResults {
  import opened Words
  import opened Wrappers

  type Uid = nat

  const INVALID_UID: Uid := 0
  const INVALID_COURSE_TIME: Word := 0xFFFF_FFFF

  datatype TeamMode = FFA | Team | Single
  datatype TeamColor = Solo | Unknown | Red | Blue
  datatype State = Disconnected | Loading | Racing | Finishing
  datatype Racer = Racer(uid: Uid, state: State, team: TeamColor, courseTime: Word)
  datatype Score = Score(uid: Uid, connected: bool, courseTime: Word, team: TeamColor)

  predicate Finished(r: Racer) {
    !r.state.Disconnected? && r.courseTime != INVALID_COURSE_TIME
  }

  /** A disconnected racer is scored as not having finished. */
  function ScoreOf(r: Racer): Score {
    if r.state.Disconnected? then Score(r.uid, false, INVALID_COURSE_TIME, r.team)
    else Score(r.uid, true, r.courseTime, r.team)
  }

  function Scores(racers: seq<Racer>): (s: seq<Score>)
    ensures |s| == |racers| && forall i | 0 <= i < |s| :: s[i] == ScoreOf(racers[i])
  {
    seq(|racers|, i requires 0 <= i < |racers| => ScoreOf(racers[i]))
  }

  predicate IsFastest(racers: seq<Racer>, k: int) {
    && 0 <= k < |racers| && Finished(racers[k])
    && forall j | 0 <= j < |racers| && Finished(racers[j]) :: racers[k].courseTime <= racers[j].courseTime
  }

  /** The winning team is that of the first of the fastest racers; it is `Solo` outside of team races. */
  ghost predicate IsWinner(team: TeamColor, racers: seq<Racer>, mode: TeamMode) {
    if mode.Team? && exists k :: IsFastest(racers, k)
    then exists k :: IsFastest(racers, k) && team == racers[k].team && forall j | j < k :: !IsFastest(racers, j)
    else team == Solo
  }

  // ---------------------------------------------------------------------------------------------
  // The order of the scores.

  function ResultRank(s: Score): nat {
    if !s.connected then 2 else if s.courseTime < INVALID_COURSE_TIME then 0 else 1
  }

  function TeamRank(s: Score, winner: TeamColor): nat {
    if s.team != winner then 1 else 0
  }

  /** The winning team first, then by result, then by course time. */
  predicate Before(a: Score, b: Score, winner: TeamColor) {
    if TeamRank(a, winner) != TeamRank(b, winner) then TeamRank(a, winner) < TeamRank(b, winner)
    else if ResultRank(a) != ResultRank(b) then ResultRank(a) < ResultRank(b)
    else a.courseTime < b.courseTime
  }

  lemma BeforeTransitive(a: Score, b: Score, c: Score, winner: TeamColor)
    requires Before(a, b, winner) && !Before(c, b, winner)
    ensures !Before(c, a, winner)
  {
  }

  ghost predicate Ordered(scores: seq<Score>, winner: TeamColor) {
    forall i, j | 0 <= i < j < |scores| :: !Before(scores[j], scores[i], winner)
  }

  /** What is published. */
  ghost predicate IsResult(scores: seq<Score>, racers: seq<Racer>, mode: TeamMode) {
    && multiset(scores) == multiset(Scores(racers))
    && exists winner :: IsWinner(winner, racers, mode) && Ordered(scores, winner)
  }

  /** What the order means for two entries, the first one published before the second: nobody stands before the
      winning team; among equals in that nobody stands before a connected finisher but a faster or equally fast one,
      and nobody disconnected before anybody connected. */
  predicate MayPrecede(a: Score, b: Score, winner: TeamColor) {
    && (b.team == winner ==> a.team == winner)
    && ((a.team == winner <==> b.team == winner) ==>
          && (b.connected ==> a.connected)
          && (b.connected && b.courseTime != INVALID_COURSE_TIME ==>
                a.courseTime != INVALID_COURSE_TIME && a.courseTime <= b.courseTime))
  }

  /** Who is disconnected has no time. */
  predicate WellScored(s: Score) {
    !s.connected ==> s.courseTime == INVALID_COURSE_TIME
  }

  lemma NotBeforeIff(a: Score, b: Score, winner: TeamColor)
    requires WellScored(a) && WellScored(b)
    ensures !Before(b, a, winner) <==> MayPrecede(a, b, winner)
  {
  }

  /** The scores are in order exactly if every two of them are. */
  lemma OrderedIff(scores: seq<Score>, winner: TeamColor)
    requires forall i | 0 <= i < |scores| :: WellScored(scores[i])
    ensures
      Ordered(scores, winner) <==> forall i, j | 0 <= i < j < |scores| :: MayPrecede(scores[i], scores[j], winner)
  {
    forall i, j | 0 <= i < j < |scores|
      ensures !Before(scores[j], scores[i], winner) <==> MayPrecede(scores[i], scores[j], winner)
    {
      NotBeforeIff(scores[i], scores[j], winner);
    }
  }

  /** The entry of a racer: a time counts only of who is still connected. */
  predicate IsEntryOf(s: Score, r: Racer) {
    && s.uid == r.uid && s.team == r.team && (s.connected <==> !r.state.Disconnected?)
    && s.courseTime == (if r.state.Disconnected? then INVALID_COURSE_TIME else r.courseTime)
  }

  /** What is published are the entries of the racers, one for each, in that order for the winning team. */
  ghost predicate IsPublished(scores: seq<Score>, entries: seq<Score>, racers: seq<Racer>, mode: TeamMode) {
    && multiset(scores) == multiset(entries)
    && |entries| == |racers| && (forall k | 0 <= k < |racers| :: IsEntryOf(entries[k], racers[k]))
    && exists winner ::
         && IsWinner(winner, racers, mode)
         && forall i, j | 0 <= i < j < |scores| :: MayPrecede(scores[i], scores[j], winner)
  }

  lemma ResultIsPublished(scores: seq<Score>, racers: seq<Racer>, mode: TeamMode)
    requires IsResult(scores, racers, mode)
    ensures IsPublished(scores, Scores(racers), racers, mode)
  {
    var winner :| IsWinner(winner, racers, mode) && Ordered(scores, winner);
    forall i | 0 <= i < |scores|
      ensures WellScored(scores[i])
    {
      var k := RacerOfScore(scores, racers, i);
    }
    OrderedIff(scores, winner);
  }

  lemma ScoreOfRacer(scores: seq<Score>, racers: seq<Racer>, k: int) returns (i: nat)
    requires multiset(scores) == multiset(Scores(racers)) && 0 <= k < |racers|
    ensures i < |scores| && scores[i] == ScoreOf(racers[k])
  {
    var s := Scores(racers)[k];
    assert s in multiset(scores);
    i :| 0 <= i < |scores| && scores[i] == s;
  }

  lemma RacerOfScore(scores: seq<Score>, racers: seq<Racer>, i: int) returns (k: nat)
    requires multiset(scores) == multiset(Scores(racers)) && 0 <= i < |scores|
    ensures k < |racers| && scores[i] == ScoreOf(racers[k])
  {
    assert scores[i] in multiset(Scores(racers));
    k :| 0 <= k < |Scores(racers)| && Scores(racers)[k] == scores[i];
  }

  lemma FastestExists(racers: seq<Racer>, finisher: nat) returns (k: nat)
    requires finisher < |racers| && Finished(racers[finisher])
    ensures IsFastest(racers, k)
    decreases racers[finisher].courseTime
  {
    if IsFastest(racers, finisher) {
      k := finisher;
    } else {
      var j :| 0 <= j < |racers| && Finished(racers[j]) && racers[j].courseTime < racers[finisher].courseTime;
      k := FastestExists(racers, j);
    }
  }

  /** The first entry is a connected finisher, and nobody connected finished faster. */
  ghost predicate FirstIsFastest(scores: seq<Score>, racers: seq<Racer>) {
    exists k :: IsFastest(racers, k) && scores != [] && scores[0] == ScoreOf(racers[k])
  }

  lemma FirstOfTeam(scores: seq<Score>, racers: seq<Racer>, winner: TeamColor, k: int)
    requires multiset(scores) == multiset(Scores(racers)) && Ordered(scores, winner)
    requires IsFastest(racers, k)
    requires racers[k].team == winner || forall j | 0 <= j < |racers| :: racers[j].team != winner
    ensures FirstIsFastest(scores, racers)
  {
    var i := ScoreOfRacer(scores, racers, k);
    var f := RacerOfScore(scores, racers, 0);
    assert !Before(scores[i], scores[0], winner);
    assert Finished(racers[f]);
    assert IsFastest(racers, f);
  }

  lemma SoloComesFirst(scores: seq<Score>, racers: seq<Racer>, j: nat)
    requires multiset(scores) == multiset(Scores(racers)) && Ordered(scores, Solo)
    requires j < |racers| && racers[j].team == Solo
    ensures scores != [] && scores[0].team == Solo
  {
    var i := ScoreOfRacer(scores, racers, j);
    assert !Before(scores[i], scores[0], Solo);
  }

  /** If anybody connected finished, the first entry has the least course time exactly if the race is a
      team race, or nobody races solo, or one of the fastest does. */
  lemma FirstIsFastestIff(scores: seq<Score>, racers: seq<Racer>, mode: TeamMode, finisher: nat)
    requires IsResult(scores, racers, mode)
    requires finisher < |racers| && Finished(racers[finisher])
    ensures
      FirstIsFastest(scores, racers)
      <==> (mode.Team?
            || (forall j | 0 <= j < |racers| :: racers[j].team != Solo)
            || (exists k :: IsFastest(racers, k) && racers[k].team == Solo))
  {
    var fastest := FastestExists(racers, finisher);
    var winner :| IsWinner(winner, racers, mode) && Ordered(scores, winner);
    if mode.Team? {
      var k :| IsFastest(racers, k) && winner == racers[k].team;
      FirstOfTeam(scores, racers, winner, k);
    } else if forall j | 0 <= j < |racers| :: racers[j].team != Solo {
      FirstOfTeam(scores, racers, winner, fastest);
    } else if k :| IsFastest(racers, k) && racers[k].team == Solo {
      FirstOfTeam(scores, racers, winner, k);
    } else {
      var j :| 0 <= j < |racers| && racers[j].team == Solo;
      SoloComesFirst(scores, racers, j);
    }
  }

  lemma SlowerFirst(scores: seq<Score>, racers: seq<Racer>)
    requires scores != [] && |racers| > 0 && Finished(racers[0])
    requires forall k | 0 <= k < |racers| && scores[0] == ScoreOf(racers[k]) ::
      racers[k].courseTime > racers[0].courseTime
    ensures !FirstIsFastest(scores, racers)
  {
  }

  lemma SwappedIsResult(a: Racer, b: Racer)
    requires Before(ScoreOf(b), ScoreOf(a), Solo)
    ensures IsResult([ScoreOf(b), ScoreOf(a)], [a, b], FFA)
  {
    var scores := [ScoreOf(b), ScoreOf(a)];
    assert Scores([a, b]) == [scores[1], scores[0]];
    assert IsWinner(Solo, [a, b], FFA) && Ordered(scores, Solo);
  }

  /** In a race for everybody with a racer on a team, the fastest need not come first. */
  lemma FastestNeedNotComeFirst()
    ensures
      var racers := [Racer(1, Finishing, Red, 100), Racer(2, Finishing, Solo, 200)];
      var scores := [Score(2, true, 200, Solo), Score(1, true, 100, Red)];
      IsResult(scores, racers, FFA) && !FirstIsFastest(scores, racers)
  {
    var a, b := Racer(1, Finishing, Red, 100), Racer(2, Finishing, Solo, 200);
    SwappedIsResult(a, b);
    SlowerFirst([ScoreOf(b), ScoreOf(a)], [a, b]);
  }

  // ---------------------------------------------------------------------------------------------
  // The new master.

  function FirstPresent(scores: seq<Score>, players: set<Uid>): Option<Uid> {
    if scores == [] then None
    else if scores[0].uid in players then Some(scores[0].uid)
    else FirstPresent(scores[1..], players)
  }

  lemma {:induction false} FirstPresentIs(scores: seq<Score>, players: set<Uid>)
    ensures FirstPresent(scores, players).None? <==> forall i | 0 <= i < |scores| :: scores[i].uid !in players
    ensures
      FirstPresent(scores, players).Some? ==>
        exists i | 0 <= i < |scores| ::
          && scores[i].uid == FirstPresent(scores, players).value && scores[i].uid in players
          && forall j | 0 <= j < i :: scores[j].uid !in players
  {
    if scores != [] && scores[0].uid !in players {
      FirstPresentIs(scores[1..], players);
      assert forall i | 0 < i < |scores| :: scores[i] == scores[1..][i - 1];
      assert forall i | 0 <= i < |scores| - 1 :: scores[1..][i] == scores[i + 1];
      if FirstPresent(scores, players).Some? {
        var i :| 0 <= i < |scores[1..]| && scores[1..][i].uid == FirstPresent(scores, players).value
          && scores[1..][i].uid in players && forall j | 0 <= j < i :: scores[1..][j].uid !in players;
        assert scores[i + 1].uid == FirstPresent(scores, players).value;
        forall j | 0 <= j < i + 1
          ensures scores[j].uid !in players
        {
          assert j > 0 ==> scores[j] == scores[1..][j - 1];
        }
      }
    }
  }

  /** The new master is the best-ranked racer who is still in the room; there is none only if no racer is. */
  lemma MasterIsBestPresent(scores: seq<Score>, racers: seq<Racer>, winner: TeamColor, players: set<Uid>)
    requires multiset(scores) == multiset(Scores(racers)) && Ordered(scores, winner)
    ensures FirstPresent(scores, players).None? <==> forall j | 0 <= j < |racers| :: racers[j].uid !in players
    ensures
      var master := FirstPresent(scores, players);
      master.Some? ==>
        exists k | 0 <= k < |racers| ::
          && racers[k].uid == master.value && master.value in players
          && forall j | 0 <= j < |racers| && racers[j].uid in players ::
               !Before(ScoreOf(racers[j]), ScoreOf(racers[k]), winner)
  {
    FirstPresentIs(scores, players);
    var master := FirstPresent(scores, players);
    if master.None? {
      forall j | 0 <= j < |racers|
        ensures racers[j].uid !in players
      {
        var i := ScoreOfRacer(scores, racers, j);
      }
    } else {
      var i :| 0 <= i < |scores| && scores[i].uid == master.value && forall j | 0 <= j < i :: scores[j].uid !in players;
      var k := RacerOfScore(scores, racers, i);
      forall j | 0 <= j < |racers| && racers[j].uid in players
        ensures !Before(ScoreOf(racers[j]), ScoreOf(racers[k]), winner)
      {
        var i' := ScoreOfRacer(scores, racers, j);
        assert i <= i';
      }
    }
  }

  // ---------------------------------------------------------------------------------------------
  // The race instance.

  lemma InsertKeepsOrder(scores: seq<Score>, score: Score, k: nat, winner: TeamColor)
    requires Ordered(scores, winner) && k <= |scores|
    requires forall j | 0 <= j < k :: !Before(score, scores[j], winner)
    requires k < |scores| ==> Before(score, scores[k], winner)
    ensures Ordered(scores[..k] + [score] + scores[k..], winner)
  {
    var r := scores[..k] + [score] + scores[k..];
    forall i, j | 0 <= i < j < |r|
      ensures !Before(r[j], r[i], winner)
    {
      if j == k {
        assert r[i] == scores[i];
      } else if i == k {
        BeforeTransitive(score, scores[k], scores[j - 1], winner);
      } else {
        var i', j' := if i < k then i else i - 1, if j < k then j else j - 1;
        assert r[i] == scores[i'] && r[j] == scores[j'];
      }
    }
  }

  class RaceInstance {
    var teamMode: TeamMode
    var racers: seq<Racer>
    var players: set<Uid>
    var masterUid: Uid

    method DetermineWinner() returns (winner: TeamColor)
      ensures IsWinner(winner, racers, teamMode)
    {
      winner := Solo;
      if teamMode.Team? {
        var best := INVALID_COURSE_TIME;
        ghost var fastest := 0;
        for i := 0 to |racers|
          invariant best == INVALID_COURSE_TIME ==> winner == Solo && forall j | 0 <= j < i :: !Finished(racers[j])
          invariant best != INVALID_COURSE_TIME ==>
            && IsFastest(racers[..i], fastest) && racers[fastest].courseTime == best && racers[fastest].team == winner
            && forall j | 0 <= j < fastest && Finished(racers[j]) :: racers[j].courseTime > best
        {
          assert racers[..i + 1] == racers[..i] + [racers[i]];
          if && !racers[i].state.Disconnected?
             && racers[i].courseTime != INVALID_COURSE_TIME && racers[i].courseTime < best {
            best, winner, fastest := racers[i].courseTime, racers[i].team, i;
          }
        }
        assert racers[..|racers|] == racers;
      }
    }

    /** Any sort will do: insertion stands for that of the standard library. */
    static method Sort(scores: seq<Score>, winner: TeamColor) returns (sorted: seq<Score>)
      ensures multiset(sorted) == multiset(scores) && Ordered(sorted, winner)
    {
      sorted := [];
      for i := 0 to |scores|
        invariant multiset(sorted) == multiset(scores[..i]) && Ordered(sorted, winner)
      {
        assert scores[..i + 1] == scores[..i] + [scores[i]];
        var k := 0;
        while k < |sorted| && !Before(scores[i], sorted[k], winner)
          invariant 0 <= k <= |sorted|
          invariant forall j | 0 <= j < k :: !Before(scores[i], sorted[j], winner)
        {
          k := k + 1;
        }
        InsertKeepsOrder(sorted, scores[i], k, winner);
        assert sorted == sorted[..k] + sorted[k..];
        sorted := sorted[..k] + [scores[i]] + sorted[k..];
      }
      assert scores[..|scores|] == scores;
    }

    /** Publishes the scores and makes the best-ranked racer who is still there the master of the room;
        without one the master stays. `announced` is the master that is broadcast. */
    method Stop() returns (scores: seq<Score>, announced: Option<Uid>)
      modifies this`masterUid
      ensures IsResult(scores, racers, teamMode) && exists entries :: IsPublished(scores, entries, racers, teamMode)
      ensures
        match FirstPresent(scores, players)
        case Some(uid) => masterUid == uid && announced == if uid != INVALID_UID then Some(uid) else None
        case None => masterUid == old(masterUid) && announced == None
    {
      var winner := DetermineWinner();
      scores := [];
      for i := 0 to |racers|
        invariant scores == Scores(racers[..i])
      {
        var racer := racers[i];
        var connected := !racer.state.Disconnected?;
        var courseTime := if connected then racer.courseTime else INVALID_COURSE_TIME;
        scores := scores + [Score(racer.uid, connected, courseTime, racer.team)];
      }
      assert racers[..|racers|] == racers;
      scores := Sort(scores, winner);
      ResultIsPublished(scores, racers, teamMode);
      announced := None;
      if scores != [] {
        var newMasterUid := AssignMaster(scores);
        if newMasterUid != INVALID_UID {
          announced := Some(newMasterUid);
        }
      }
    }

    method AssignMaster(scores: seq<Score>) returns (newMasterUid: Uid)
      requires scores != []
      modifies this`masterUid
      ensures
        match FirstPresent(scores, players)
        case Some(uid) => masterUid == uid == newMasterUid
        case None => masterUid == old(masterUid) && newMasterUid == INVALID_UID
    {
      FirstPresentIs(scores, players);
      newMasterUid := scores[0].uid;
      if |players| < 1 {
        return INVALID_UID;
      }
      if newMasterUid in players {
        masterUid := newMasterUid;
        return;
      }
      for i := 0 to |scores|
        invariant masterUid == old(masterUid)
        invariant forall j | 0 <= j < i :: scores[j].uid !in players
        invariant FirstPresent(scores, players) == FirstPresent(scores[i..], players)
      {
        if scores[i].uid in players {
          newMasterUid, masterUid := scores[i].uid, scores[i].uid;
          return;
        }
        assert scores[i..][1..] == scores[i + 1..];
      }
      newMasterUid := INVALID_UID;
    }
  }
}
