/**
 Legal runs that lead to what is not ruled out: an admission on the token of another, an instance without a
 client, and two clients under one name.
 */
module LoginCases {
  import opened Wrappers
  import opened LoginModel
  import opened LoginRuns

  // ---------------------------------------------------------------------------------------------
  // What legal runs reach.

  ghost predicate Reachable(w: World) {
    exists steps :: LegalRun(Init(), steps) && Run(Init(), steps) == w
  }

  lemma {:induction false} OneMoreStep(w: World, steps: seq<Step>, s: Step)
    requires LegalRun(w, steps) && Legal(Run(w, steps), s)
    ensures LegalRun(w, steps + [s]) && Run(w, steps + [s]) == Next(Run(w, steps), s)
    decreases |steps|
  {
    if steps == [] {
      assert [s][1..] == [];
    } else {
      assert (steps + [s])[1..] == steps[1..] + [s];
      OneMoreStep(Next(w, steps[0]), steps[1..], s);
    }
  }

  lemma Reach(w: World, s: Step)
    requires Reachable(w) && Legal(w, s)
    ensures Reachable(Next(w, s))
  {
    var steps :| LegalRun(Init(), steps) && Run(Init(), steps) == w;
    OneMoreStep(Init(), steps, s);
  }

  const YES: Answers := Answers(false, true, true, Some(INVALID_UID), false, false, true)

  function Asking(name: Name, token: Token): Login {
    Login(name, token, false, None, false, false)
  }

  /** A client connects and logs in, and both jobs are run. */
  function AfterLogin(w: World, name: Name, token: Token): World {
    w.(clients := w.clients[w.nextId := Context(name, false)], nextId := w.nextId + 1,
       logins := w.logins[w.nextId := Asking(name, token)], requests := w.requests + [w.nextId],
       log := w.log + [LoginQueued(w.nextId, name, token)])
  }

  lemma ConnectionIsReached(w: World)
    requires Reachable(w) && w.jobs == [] && w.nextId !in w.logins
    ensures Reachable(
      w.(clients := w.clients[w.nextId := Context(NO_NAME, false)], nextId := w.nextId + 1,
         logins := w.logins[w.nextId := FRESH]))
  {
    Reach(w, Connect);
    Reach(Next(w, Connect), RunNextJob);
  }

  lemma QueuedLoginIsReached(w: World, id: ClientId, name: Name, token: Token)
    requires Reachable(w) && w.jobs == [] && id in w.clients && id in w.logins
    requires w.clients[id] == Context(NO_NAME, false) && w.logins[id] == FRESH && !IsRefused(w, name, token)
    ensures Reachable(
      w.(clients := w.clients[id := Context(name, false)], logins := w.logins[id := Asking(name, token)],
         requests := w.requests + [id], log := w.log + [LoginQueued(id, name, token)]))
  {
    Reach(w, LogIn(id, name, token));
    Reach(Next(w, LogIn(id, name, token)), RunNextJob);
  }

  lemma LoginIsReached(w: World, name: Name, token: Token)
    requires Reachable(w) && w.jobs == [] && w.nextId !in w.logins && w.nextId !in w.clients
    requires !IsRefused(w, name, token)
    ensures Reachable(AfterLogin(w, name, token))
  {
    var id := w.nextId;
    var v := w.(
      clients := w.clients[id := Context(NO_NAME, false)], nextId := id + 1, logins := w.logins[id := FRESH]);
    ConnectionIsReached(w);
    assert !IsLoggedIn(v, name);
    QueuedLoginIsReached(v, id, name, token);
    assert v.clients[id := Context(name, false)] == w.clients[id := Context(name, false)];
    assert v.logins[id := Asking(name, token)] == w.logins[id := Asking(name, token)];
  }

  /** Two clients whose logins are queued, under the same name or not. */
  function TwoQueued(a: Name, t: Token, b: Name, u: Token): World {
    AfterLogin(AfterLogin(Init(), a, t), b, u)
  }

  lemma TwoAreQueued(a: Name, t: Token, b: Name, u: Token)
    requires a != "" && t != "" && b != "" && u != ""
    ensures Reachable(TwoQueued(a, t, b, u))
    ensures TwoQueued(a, t, b, u) == World(
      map[0 := Context(a, false), 1 := Context(b, false)], 2, [], map[0 := Asking(a, t), 1 := Asking(b, u)],
      [0, 1], [], map[], [], [], [LoginQueued(0, a, t), LoginQueued(1, b, u)])
  {
    assert Run(Init(), []) == Init();
    LoginIsReached(Init(), a, t);
    LoginIsReached(AfterLogin(Init(), a, t), b, u);
  }

  /** The head of the request queue asks. */
  function AfterAsking(w: World): World
    requires w.requests != [] && w.requests[0] in w.logins
  {
    var id := w.requests[0];
    var login := w.logins[id];
    w.(logins := w.logins[id := login.(authenticationRequested := true)],
       authentications := w.authentications + [Authentication(login.userName, login.userToken)])
  }

  lemma AskingIsReached(w: World)
    requires Reachable(w) && w.requests != [] && w.requests[0] in w.logins
    requires !w.logins[w.requests[0]].authenticationRequested
    ensures Reachable(AfterAsking(w))
  {
    Reach(w, Request(YES));
  }

  /** All logins under the name take the verdict. */
  function AfterPoll(w: World, verdict: Verdict): World {
    w.(verdicts := [],
       logins := map x | x in w.logins ::
         if w.logins[x].userName == verdict.userName
         then w.logins[x].(isAuthenticated := Some(verdict.isAuthenticated)) else w.logins[x])
  }

  lemma OneVerdict(login: Login, verdict: Verdict)
    ensures Judge(login, [verdict]) ==
      if login.userName == verdict.userName then login.(isAuthenticated := Some(verdict.isAuthenticated)) else login
  {
    var none := [verdict][..0];
    assert Judge(login, none) == login;
  }

  lemma PollIsReached(w: World, verdict: Verdict)
    requires Reachable(w) && w.verdicts == [verdict]
    ensures Reachable(AfterPoll(w, verdict))
  {
    Reach(w, Poll);
    forall x | x in w.logins
      ensures Judge(w.logins[x], w.verdicts) == AfterPoll(w, verdict).logins[x]
    {
      OneVerdict(w.logins[x], verdict);
    }
    assert Next(w, Poll).logins == AfterPoll(w, verdict).logins;
  }

  /** The head of the request queue, authenticated, passes on to the response queue. */
  function AfterPassing(w: World): World
    requires w.requests != [] && w.requests[0] in w.logins
  {
    var id := w.requests[0];
    var login := w.logins[id];
    w.(logins := w.logins[id := login.(userLoadRequested := true)],
       requests := w.requests[1..], responses := w.responses + [id],
       log := w.log + [UserLoadRequested(login.userName), UserDataChecked(id, login.userName, true),
                       PunishmentsChecked(id, login.userName, false)])
  }

  lemma PassingIsReached(w: World)
    requires Reachable(w) && w.requests != [] && w.requests[0] in w.logins
    requires
      var login := w.logins[w.requests[0]];
      login.authenticationRequested && login.isAuthenticated == Some(true) && !login.userLoadRequested
    ensures Reachable(AfterPassing(w))
  {
    var w1 := Next(w, Request(YES));
    Reach(w, Request(YES));
    Reach(w1, Request(YES));
    assert w1.logins == AfterPassing(w).logins;
    assert Next(w1, Request(YES)).log == AfterPassing(w).log;
    assert Next(w1, Request(YES)) == AfterPassing(w);
  }

  /** The first of the two has asked and got its answer. */
  lemma FirstIsAnswered(a: Name, t: Token, b: Name, u: Token) returns (w: World)
    requires a != "" && t != "" && b != "" && u != ""
    ensures Reachable(w)
    ensures w == World(
      map[0 := Context(a, false), 1 := Context(b, false)], 2, [],
      map[0 := Login(a, t, true, None, false, false), 1 := Asking(b, u)],
      [0, 1], [], map[], [], [Verdict(a, true)],
      [LoginQueued(0, a, t), LoginQueued(1, b, u), VerdictGiven(Verdict(a, true), t)])
  {
    TwoAreQueued(a, t, b, u);
    AskingIsReached(TwoQueued(a, t, b, u));
    var asked := AfterAsking(TwoQueued(a, t, b, u));
    Reach(asked, AskBackend(Some(true)));
    w := Next(asked, AskBackend(Some(true)));
  }

  /** It is authenticated, and with it the second if it has the same name. */
  lemma FirstIsJudged(a: Name, t: Token, b: Name, u: Token) returns (w: World)
    requires a != "" && t != "" && b != "" && u != ""
    ensures Reachable(w)
    ensures w == World(
      map[0 := Context(a, false), 1 := Context(b, false)], 2, [],
      map[0 := Login(a, t, true, Some(true), false, false),
          1 := Asking(b, u).(isAuthenticated := if a == b then Some(true) else None)],
      [0, 1], [], map[], [], [], [LoginQueued(0, a, t), LoginQueued(1, b, u), VerdictGiven(Verdict(a, true), t)])
  {
    var answered := FirstIsAnswered(a, t, b, u);
    PollIsReached(answered, Verdict(a, true));
    w := AfterPoll(answered, Verdict(a, true));
  }

  function FirstLog(a: Name, t: Token, b: Name, u: Token): seq<Entry> {
    [LoginQueued(0, a, t), LoginQueued(1, b, u), VerdictGiven(Verdict(a, true), t), UserLoadRequested(a),
     UserDataChecked(0, a, true), PunishmentsChecked(0, a, false)]
  }

  /** It waits to be admitted. */
  lemma FirstWaits(a: Name, t: Token, b: Name, u: Token) returns (w: World)
    requires a != "" && t != "" && b != "" && u != ""
    ensures Reachable(w)
    ensures w == World(
      map[0 := Context(a, false), 1 := Context(b, false)], 2, [],
      map[0 := Login(a, t, true, Some(true), true, false),
          1 := Asking(b, u).(isAuthenticated := if a == b then Some(true) else None)],
      [1], [0], map[], [], [], FirstLog(a, t, b, u))
  {
    var judged := FirstIsJudged(a, t, b, u);
    PassingIsReached(judged);
    w := AfterPassing(judged);
  }

  /** A user with a character is admitted too, once its data have been asked for and are there. */
  lemma CharacterIsAdmitted(name: Name, token: Token, uid: Uid) returns (steps: seq<Step>)
    requires name != "" && token != "" && uid != INVALID_UID
    ensures LegalRun(Init(), steps)
    ensures
      var w := Run(Init(), steps);
      LoggedInAs(w, 0, name) && name in w.users && w.users[name] == uid && Created(0, name, uid) in w.log
  {
    var a := YES.(record := Some(uid));
    var waiting := FirstWaits(name, token, name, token);
    Reach(waiting, Response(a));
    var asked := Next(waiting, Response(a));
    assert asked.logins[0].characterLoadRequested && asked.responses == [0];
    Reach(asked, Response(a));
    var end := Next(asked, Response(a));
    HeadIsAdmitted(asked, 0, name, uid, a);
    steps :| LegalRun(Init(), steps) && Run(Init(), steps) == end;
  }

  lemma HeadIsAdmitted(w: World, id: ClientId, name: Name, uid: Uid, a: Answers)
    requires w.responses == [id] && id in w.logins && w.logins[id].characterLoadRequested
    requires w.logins[id].userName == name && name !in w.users && id in w.clients && w.clients[id].userName == name
    requires a == YES.(record := Some(uid)) && uid != INVALID_UID
    ensures
      var v := Next(w, Response(a));
      LoggedInAs(v, id, name) && name in v.users && v.users[name] == uid && Created(id, name, uid) in v.log
  {
  }

  // ---------------------------------------------------------------------------------------------
  // An instance without a client.

  /** Such an instance can arise under every name: the client disconnects while its login waits to be admitted,
      and the admission comes before the disconnect job. */
  lemma OrphanArises(name: Name, token: Token) returns (steps: seq<Step>)
    requires name != "" && token != ""
    ensures LegalRun(Init(), steps) && Orphan(Run(Init(), steps), name)
  {
    var waiting := FirstWaits(name, token, name, token);
    Reach(waiting, Disconnect(0));
    var gone := Next(waiting, Disconnect(0));
    Reach(gone, Response(YES));
    var end := Next(gone, Response(YES));
    assert end.users == map[name := INVALID_UID] && end.clients == map[1 := Context(name, false)];
    assert end.jobs == [DisconnectJob(0, false, name)];
    steps :| LegalRun(Init(), steps) && Run(Init(), steps) == end;
  }

  // ---------------------------------------------------------------------------------------------
  // An admission on the token of another.

  lemma FirstLeaves(w: World, a: Context, b: Context, x: Login, y: Login)
    requires w.clients == map[0 := a, 1 := b] && !a.isAuthenticated && w.logins == map[0 := x, 1 := y]
    requires w.requests == [1] && w.responses == [0] && w.jobs == []
    ensures
      Next(Next(w, Disconnect(0)), RunNextJob) == w.(clients := map[1 := b], logins := map[1 := y], responses := [])
  {
    ClosedUp([1], [], 0, [1]);
    ClosedUp([0], [], 0, []);
    assert [] + [0] + [] == [0];
    assert w.clients - {0} == map[1 := b] && w.logins - {0} == map[1 := y];
  }

  /** The first disconnects; the second is left, authenticated without having asked. */
  lemma SecondIsLeft(name: Name, t: Token, u: Token) returns (w: World)
    requires name != "" && t != "" && u != ""
    ensures Reachable(w)
    ensures w == World(
      map[1 := Context(name, false)], 2, [], map[1 := Login(name, u, false, Some(true), false, false)],
      [1], [], map[], [], [], FirstLog(name, t, name, u))
  {
    var waiting := FirstWaits(name, t, name, u);
    Reach(waiting, Disconnect(0));
    var gone := Next(waiting, Disconnect(0));
    Reach(gone, RunNextJob);
    w := Next(gone, RunNextJob);
    FirstLeaves(waiting, waiting.clients[0], waiting.clients[1], waiting.logins[0], waiting.logins[1]);
  }

  function SecondLog(name: Name, t: Token, u: Token): seq<Entry> {
    FirstLog(name, t, name, u)
    + [VerdictGiven(Verdict(name, false), u), UserLoadRequested(name), UserDataChecked(1, name, true),
       PunishmentsChecked(1, name, false)]
  }

  /** It asks, and passes on before the negative verdict is polled. */
  lemma SecondPasses(name: Name, t: Token, u: Token) returns (w: World)
    requires name != "" && t != "" && u != ""
    ensures Reachable(w)
    ensures w == World(
      map[1 := Context(name, false)], 2, [], map[1 := Login(name, u, true, Some(true), true, false)],
      [], [1], map[], [], [Verdict(name, false)], SecondLog(name, t, u))
  {
    var left := SecondIsLeft(name, t, u);
    AskingIsReached(left);
    var asked := AfterAsking(left);
    Reach(asked, AskBackend(Some(false)));
    var answered := Next(asked, AskBackend(Some(false)));
    PassingIsReached(answered);
    w := AfterPassing(answered);
    assert w.log == SecondLog(name, t, u);
  }

  /** The verdict is polled, too late: the client is admitted. */
  lemma SecondIsAdmitted(name: Name, t: Token, u: Token) returns (w: World)
    requires name != "" && t != "" && u != ""
    ensures Reachable(w) && w.clients == map[1 := Context(name, true)]
    ensures w.log == SecondLog(name, t, u) + [Created(1, name, INVALID_UID)] + [Accepted(1, true)]
  {
    var passed := SecondPasses(name, t, u);
    PollIsReached(passed, Verdict(name, false));
    var polled := AfterPoll(passed, Verdict(name, false));
    Reach(polled, Response(YES));
    w := Next(polled, Response(YES));
  }

  /** The k-th entry is the admission of a client that logged in with token `u`, on which there was no positive
      verdict; the only other login under the name was one with token `t`. */
  ghost predicate AdmittedUnconfirmed(
    log: seq<Entry>, k: nat, id: ClientId, other: ClientId, name: Name, uid: Uid, t: Token, u: Token)
  {
    && k < |log| && log[k] == Created(id, name, uid) && id != other
    && LoginQueued(id, name, u) in log[..k] && LoginQueued(other, name, t) in log[..k]
    && (forall e | e in log[..k] && e.LoginQueued? && e.name == name ::
          e == LoginQueued(id, name, u) || e == LoginQueued(other, name, t))
    && VerdictGiven(Verdict(name, true), u) !in log[..k]
  }

  lemma SecondIsUnconfirmed(name: Name, t: Token, u: Token, log: seq<Entry>, k: nat)
    requires log == SecondLog(name, t, u) + [Created(1, name, INVALID_UID)] + [Accepted(1, true)]
    requires k == |SecondLog(name, t, u)| && t != u
    ensures AdmittedUnconfirmed(log, k, 1, 0, name, INVALID_UID, t, u)
    ensures VerdictGiven(Verdict(name, false), u) in log[..k] && VerdictGiven(Verdict(name, true), u) !in log
  {
    var before := SecondLog(name, t, u);
    assert log[..k] == before && log[k] == Created(1, name, INVALID_UID);
    EntriesOf(name, t, u);
    assert forall e :: e in log <==> e in before || e == Created(1, name, INVALID_UID) || e == Accepted(1, true);
  }

  lemma EntriesOf(name: Name, t: Token, u: Token)
    ensures
      var log := SecondLog(name, t, u);
      && LoginQueued(0, name, t) in log && LoginQueued(1, name, u) in log
      && (forall e | e in log && e.LoginQueued? :: e == LoginQueued(0, name, t) || e == LoginQueued(1, name, u))
      && VerdictGiven(Verdict(name, false), u) in log
      && (forall e | e in log && e.VerdictGiven? && e.verdict.isAuthenticated :: e.token == t)
  {
    var log := SecondLog(name, t, u);
    assert log[0] == LoginQueued(0, name, t) && log[1] == LoginQueued(1, name, u);
    assert log[6] == VerdictGiven(Verdict(name, false), u);
  }

  /** For every name and any two different tokens, a client is admitted whose own token only ever had a negative
      verdict. */
  lemma AdmittedOnTokenOfAnother(name: Name, t: Token, u: Token) returns (steps: seq<Step>, k: nat)
    requires name != "" && t != "" && u != "" && t != u
    ensures LegalRun(Init(), steps)
    ensures
      var w := Run(Init(), steps);
      && AdmittedUnconfirmed(w.log, k, 1, 0, name, INVALID_UID, t, u)
      && VerdictGiven(Verdict(name, false), u) in w.log[..k] && VerdictGiven(Verdict(name, true), u) !in w.log
      && LoggedInAs(w, 1, name)
  {
    var w := SecondIsAdmitted(name, t, u);
    k := |SecondLog(name, t, u)|;
    SecondIsUnconfirmed(name, t, u, w.log, k);
    steps :| LegalRun(Init(), steps) && Run(Init(), steps) == w;
  }

  /** With one other login under the name, there is a run that admits a client without a positive verdict on its
      own token exactly if the tokens differ. */
  lemma AdmittedUnconfirmedIff(name: Name, t: Token, u: Token)
    requires name != "" && t != "" && u != ""
    ensures
      (exists steps, k, id, other, uid ::
         LegalRun(Init(), steps) && AdmittedUnconfirmed(Run(Init(), steps).log, k, id, other, name, uid, t, u))
      <==> t != u
  {
    if t != u {
      var steps, k := AdmittedOnTokenOfAnother(name, t, u);
    } else {
      forall steps, k, id, other, uid | LegalRun(Init(), steps)
        ensures !AdmittedUnconfirmed(Run(Init(), steps).log, k, id, other, name, uid, t, u)
      {
        if AdmittedUnconfirmed(Run(Init(), steps).log, k, id, other, name, uid, t, u) {
          OwnTokenOrAnother(steps, k, id, name, uid, u);
        }
      }
    }
  }

  // ---------------------------------------------------------------------------------------------
  // A second login on one connection.

  /** The first of two clients is admitted. */
  lemma FirstIsAdmitted(a: Name, t: Token, b: Name, u: Token) returns (w: World)
    requires a != "" && t != "" && b != "" && u != "" && a != b
    ensures Reachable(w)
    ensures w == World(
      map[0 := Context(a, true), 1 := Context(b, false)], 2, [], map[1 := Asking(b, u)],
      [1], [], map[a := INVALID_UID], [], [],
      FirstLog(a, t, b, u) + [Created(0, a, INVALID_UID)] + [Accepted(0, true)])
  {
    var waiting := FirstWaits(a, t, b, u);
    Reach(waiting, Response(YES));
    w := Next(waiting, Response(YES));
  }

  /** The second is authenticated and waits to be admitted. */
  lemma SecondWaits(a: Name, t: Token, b: Name, u: Token) returns (w: World)
    requires a != "" && t != "" && b != "" && u != "" && a != b
    ensures Reachable(w) && w.clients == map[0 := Context(a, true), 1 := Context(b, false)]
    ensures w.logins == map[1 := Login(b, u, true, Some(true), true, false)]
    ensures w.responses == [1] && w.users == map[a := INVALID_UID]
  {
    var admitted := FirstIsAdmitted(a, t, b, u);
    AskingIsReached(admitted);
    var asked := AfterAsking(admitted);
    Reach(asked, AskBackend(Some(true)));
    var answered := Next(asked, AskBackend(Some(true)));
    PollIsReached(answered, Verdict(b, true));
    var judged := AfterPoll(answered, Verdict(b, true));
    PassingIsReached(judged);
    w := AfterPassing(judged);
  }

  lemma BothAreAdmitted(w: World, a: Name, b: Name, u: Token, again: Token)
    requires w.clients == map[0 := Context(a, true), 1 := Context(b, false)]
    requires w.logins == map[1 := Login(b, u, true, Some(true), true, false)]
    requires w.responses == [1] && w.users == map[a := INVALID_UID]
    requires b != "" && again != "" && a != b
    ensures
      var v := Next(w, LogIn(0, b, again));
      && v.clients == map[0 := Context(b, true), 1 := Context(b, false)]
      && Next(v, Response(YES)).clients == map[0 := Context(b, true), 1 := Context(b, true)]
  {
    assert !IsLoggedIn(w, b);
  }

  /** A legal run after which the client of `a` logs in a second time, as `b`, and then the client of `b` is
      admitted: both are logged in as `b`. */
  lemma SecondLoginSharesName(a: Name, t: Token, b: Name, u: Token, again: Token) returns (steps: seq<Step>)
    requires a != "" && t != "" && b != "" && u != "" && again != "" && a != b
    ensures LegalRun(Init(), steps)
    ensures
      var w := Run(Init(), steps);
      && UniqueNames(w) && LoggedInAs(w, 0, a)
      && var v := Next(w, LogIn(0, b, again));
         UniqueNames(v) && LoggedInAs(Next(v, Response(YES)), 0, b) && LoggedInAs(Next(v, Response(YES)), 1, b)
  {
    var w := SecondWaits(a, t, b, u);
    BothAreAdmitted(w, a, b, u, again);
    steps :| LegalRun(Init(), steps) && Run(Init(), steps) == w;
  }

  lemma ReachedSessions(w: World)
    requires Reachable(w)
    ensures SessionInv(w)
  {
    var steps :| LegalRun(Init(), steps) && Run(Init(), steps) == w;
    RunKeepsInv(Init(), steps);
  }

  lemma NameWithoutInstance(w: World, id: ClientId, name: Name, token: Token)
    requires id in w.clients && w.clients[id].isAuthenticated && name !in w.users && !IsRefused(w, name, token)
    ensures
      var v := Next(w, LogIn(id, name, token));
      LoggedInAs(v, id, name) && name !in v.users && !SessionInv(v)
  {
    assert LoggedInAs(Next(w, LogIn(id, name, token)), id, name);
  }

  /** Even before the other is admitted, the name of the second login has no user instance. */
  lemma SecondLoginBreaksSessions(a: Name, t: Token, b: Name, u: Token, again: Token) returns (steps: seq<Step>)
    requires a != "" && t != "" && b != "" && u != "" && again != "" && a != b
    ensures LegalRun(Init(), steps)
    ensures
      var w := Run(Init(), steps);
      && SessionInv(w) && LoggedInAs(w, 0, a)
      && var v := Next(w, LogIn(0, b, again));
         LoggedInAs(v, 0, b) && b !in v.users && !SessionInv(v)
  {
    var w := FirstIsAdmitted(a, t, b, u);
    ReachedSessions(w);
    assert !IsLoggedIn(w, b);
    NameWithoutInstance(w, 0, b, again);
    steps :| LegalRun(Init(), steps) && Run(Init(), steps) == w;
  }
}
