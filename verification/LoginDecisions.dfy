/** When exactly a login is refused, asks, waits, passes on and is admitted, and what the others see of it. */
module LoginDecisions {
  import opened Wrappers
  import opened LoginModel
  import opened LoginRuns

  /** The step from `w` to `v` has left the entry in the log. */
  ghost predicate Logged(w: World, v: World, e: Entry) {
    |w.log| <= |v.log| && w.log == v.log[..|w.log|] && e in v.log[|w.log|..]
  }

  lemma Adds(w: World, v: World, more: seq<Entry>)
    requires v.log == w.log + more
    ensures forall e :: Logged(w, v, e) <==> e in more
  {
    assert v.log[..|w.log|] == w.log && v.log[|w.log|..] == more;
  }

  // ---------------------------------------------------------------------------------------------
  // At the door.

  lemma LoggedInIff(w: World, name: Name)
    ensures IsLoggedIn(w, name) <==> exists other :: LoggedInAs(w, other, name)
  {
    if IsLoggedIn(w, name) {
      var other :| other in w.clients && w.clients[other] == Context(name, true);
      assert LoggedInAs(w, other, name);
    }
  }

  /** A login is refused for an empty name or token, or while somebody is logged in under the name; any other gives
      the client its name and queues a job. */
  lemma LoginIsRefusedIff(w: World, id: ClientId, name: Name, token: Token, reason: Reason)
    requires id in w.clients
    ensures
      var v := HandleLogin(w, id, name, token);
      && (Logged(w, v, Rejected(id, reason)) <==>
            || (reason == InvalidLoginId && (name == "" || token == ""))
            || (reason == Duplicated && name != "" && token != "" && exists other :: LoggedInAs(w, other, name)))
      && (if name != "" && token != "" && !exists other :: LoggedInAs(w, other, name)
          then
            && v.jobs == w.jobs + [LoginJob(id, name, token)]
            && v.clients == w.clients[id := Context(name, w.clients[id].isAuthenticated)]
          else v.jobs == w.jobs && v.clients == w.clients)
  {
    var v := HandleLogin(w, id, name, token);
    LoggedInIff(w, name);
    if name == "" || token == "" {
      Adds(w, v, [Rejected(id, InvalidLoginId)]);
    } else if IsLoggedIn(w, name) {
      Adds(w, v, [Rejected(id, Duplicated)]);
    } else {
      Adds(w, v, []);
    }
  }

  // ---------------------------------------------------------------------------------------------
  // The request queue.

  /** The head has been authenticated and its user data asked for, and they are not being loaded any more. */
  predicate IsReady(login: Login, a: Answers) {
    && login.authenticationRequested && login.isAuthenticated == Some(true)
    && login.userLoadRequested && !a.beingLoaded
  }

  predicate IsPassedOn(login: Login, a: Answers) {
    IsReady(login, a) && a.userLoaded && a.record.Some? && !a.banned
  }

  predicate IsTurnedAway(login: Login, a: Answers, reason: Reason) {
    match reason
    case InvalidUser => login.authenticationRequested && login.isAuthenticated == Some(false)
    case Generic => IsReady(login, a) && !a.userLoaded
    case DisconnectYourself => IsReady(login, a) && a.userLoaded && a.record.Some? && a.banned
    case _ => false
  }

  /** What is logged of a decision. */
  function RequestNotes(w: World, id: ClientId, login: Login, d: RequestDecision): seq<Entry> {
    match d
    case RefuseRequest(reason) => if id in w.clients then [Rejected(id, reason)] else []
    case LoadUser => [UserLoadRequested(login.userName)]
    case _ => []
  }

  function RequestLog(w: World, a: Answers): seq<Entry>
    requires w.requests != []
  {
    var id, login := w.requests[0], LoginOf(w, w.requests[0]);
    RequestFindings(id, login, a) + RequestNotes(w, id, login, DecideRequest(login, a))
  }

  lemma PerformedRequestLog(w: World, d: RequestDecision)
    requires w.requests != [] && w.requests[0] in w.logins
    ensures PerformRequest(w, d).log == w.log + RequestNotes(w, w.requests[0], w.logins[w.requests[0]], d)
  {
  }

  lemma RequestLogIs(w: World, a: Answers)
    requires w.requests != []
    ensures ProcessLoginRequest(w, a).log == w.log + RequestLog(w, a)
  {
    var id, login := w.requests[0], LoginOf(w, w.requests[0]);
    PerformedRequestLog(
      w.(logins := w.logins[id := login], log := w.log + RequestFindings(id, login, a)), DecideRequest(login, a));
  }

  lemma RequestDecisionIs(login: Login, a: Answers, reason: Reason)
    ensures
      var d := DecideRequest(login, a);
      && (d == RefuseRequest(reason) <==> IsTurnedAway(login, a, reason))
      && (d.PassOn? <==> IsPassedOn(login, a))
      && (d.PassOn? || d.RefuseRequest? || d.DropRequest? <==> IsReady(login, a) || IsTurnedAway(login, a, InvalidUser))
      && (d.AskAuthentication? <==> !login.authenticationRequested)
      && (d.LoadUser? <==>
            login.authenticationRequested && login.isAuthenticated == Some(true) && !login.userLoadRequested)
  {
  }

  lemma RequestNoted(w: World, id: ClientId, login: Login, a: Answers, d: RequestDecision, e: Entry)
    requires e.Rejected? || e.UserLoadRequested?
    ensures e in RequestFindings(id, login, a) + RequestNotes(w, id, login, d) <==>
      || (d.RefuseRequest? && id in w.clients && e == Rejected(id, d.reason))
      || (d.LoadUser? && e == UserLoadRequested(login.userName))
  {
    var notes := RequestNotes(w, id, login, d);
    assert e !in RequestFindings(id, login, a);
    assert d.RefuseRequest? && id in w.clients ==> notes == [Rejected(id, d.reason)];
    assert d.LoadUser? ==> notes == [UserLoadRequested(login.userName)];
  }

  lemma RequestLogged(w: World, a: Answers, e: Entry)
    requires w.requests != [] && (e.Rejected? || e.UserLoadRequested?)
    ensures
      var id, login := w.requests[0], LoginOf(w, w.requests[0]);
      var d := DecideRequest(login, a);
      Logged(w, ProcessLoginRequest(w, a), e) <==>
        || (d.RefuseRequest? && id in w.clients && e == Rejected(id, d.reason))
        || (d.LoadUser? && e == UserLoadRequested(login.userName))
  {
    var id, login := w.requests[0], LoginOf(w, w.requests[0]);
    RequestLogIs(w, a);
    Adds(w, ProcessLoginRequest(w, a), RequestLog(w, a));
    RequestNoted(w, id, login, a, DecideRequest(login, a), e);
  }

  lemma RequestQueues(w: World, a: Answers)
    requires w.requests != []
    ensures
      var id, v := w.requests[0], ProcessLoginRequest(w, a);
      var d := DecideRequest(LoginOf(w, id), a);
      && v.responses == (if d.PassOn? then w.responses + [id] else w.responses)
      && v.requests == (if d.PassOn? || d.RefuseRequest? || d.DropRequest? then w.requests[1..] else w.requests)
  {
  }

  lemma RequestLogins(w: World, a: Answers)
    requires w.requests != []
    ensures
      var id, login, v := w.requests[0], LoginOf(w, w.requests[0]), ProcessLoginRequest(w, a);
      var d := DecideRequest(login, a);
      && v.authentications ==
           (if d.AskAuthentication? then w.authentications + [Authentication(login.userName, login.userToken)]
            else w.authentications)
      && v.logins == w.logins[id := login.(
           authenticationRequested := d.AskAuthentication? || login.authenticationRequested,
           userLoadRequested := d.LoadUser? || login.userLoadRequested)]
  {
  }

  /** The head of the request queue passes on exactly if it is authenticated and its user data are there without a
      ban; it is turned away exactly for a negative verdict, missing user data or a ban, and told so if it is
      connected. Otherwise it stays the head, but for a user record that is not available. */
  lemma RequestIsDecided(w: World, a: Answers, reason: Reason)
    requires w.requests != []
    ensures
      var id, login, v := w.requests[0], LoginOf(w, w.requests[0]), ProcessLoginRequest(w, a);
      && (Logged(w, v, Rejected(id, reason)) <==> id in w.clients && IsTurnedAway(login, a, reason))
      && v.responses == (if IsPassedOn(login, a) then w.responses + [id] else w.responses)
      && v.requests ==
           (if IsReady(login, a) || IsTurnedAway(login, a, InvalidUser) then w.requests[1..] else w.requests)
  {
    RequestDecisionIs(LoginOf(w, w.requests[0]), a, reason);
    RequestLogged(w, a, Rejected(w.requests[0], reason));
    RequestQueues(w, a);
  }

  /** Before that it asks the authentication backend, once, and then for the user data, once. */
  lemma RequestAsks(w: World, a: Answers, name: Name)
    requires w.requests != []
    ensures
      var id, login, v := w.requests[0], LoginOf(w, w.requests[0]), ProcessLoginRequest(w, a);
      && v.authentications ==
           (if login.authenticationRequested then w.authentications
            else w.authentications + [Authentication(login.userName, login.userToken)])
      && (Logged(w, v, UserLoadRequested(name))
          <==> name == login.userName && login.authenticationRequested && login.isAuthenticated == Some(true)
               && !login.userLoadRequested)
      && v.logins == w.logins[id := login.(
           authenticationRequested := true,
           userLoadRequested :=
             login.userLoadRequested || (login.authenticationRequested && login.isAuthenticated == Some(true)))]
  {
    RequestDecisionIs(LoginOf(w, w.requests[0]), a, InvalidUser);
    RequestLogged(w, a, UserLoadRequested(name));
    RequestLogins(w, a);
  }

  // ---------------------------------------------------------------------------------------------
  // The response queue.

  /** The user record is there, and the character data are there if they have been asked for. */
  predicate IsSettled(login: Login, a: Answers) {
    a.record.Some? && (login.characterLoadRequested ==> !a.beingLoaded)
  }

  /** The user has no character, or its data have been loaded. */
  predicate IsComplete(login: Login, a: Answers) {
    && IsSettled(login, a)
    && (a.record.value == INVALID_UID || (login.characterLoadRequested && a.characterLoaded))
  }

  /** What is logged of a decision. */
  function ResponseNotes(w: World, id: ClientId, name: Name, d: ResponseDecision, creates: bool): seq<Entry> {
    match d
    case WaitForData => []
    case LoadCharacter(uid) => [CharacterLoadRequested(name, uid)]
    case RefuseResponse(reason) => if id in w.clients then [Rejected(id, reason)] else []
    case Admit(uid) =>
      [Created(id, name, uid)] + if id in w.clients then [Accepted(id, creates || uid == INVALID_UID)] else []
  }

  function ResponseLog(w: World, a: Answers): seq<Entry>
    requires w.responses != []
  {
    var id, login := w.responses[0], LoginOf(w, w.responses[0]);
    ResponseFindings(id, login, a)
    + ResponseNotes(
        w, id, login.userName, DecideResponse(login, a, login.userName in w.users), a.forcedIntoCreator)
  }

  lemma PerformedResponseLog(w: World, d: ResponseDecision, a: Answers)
    requires w.responses != [] && w.responses[0] in w.logins
    ensures PerformResponse(w, d, a).log ==
      w.log + ResponseNotes(w, w.responses[0], w.logins[w.responses[0]].userName, d, a.forcedIntoCreator)
  {
  }

  lemma ResponseLogIs(w: World, a: Answers)
    requires w.responses != []
    ensures ProcessLoginResponse(w, a).log == w.log + ResponseLog(w, a)
  {
    var id, login := w.responses[0], LoginOf(w, w.responses[0]);
    PerformedResponseLog(
      w.(logins := w.logins[id := login], log := w.log + ResponseFindings(id, login, a)),
      DecideResponse(login, a, login.userName in w.users), a);
  }

  lemma ResponseDecisionIs(login: Login, a: Answers, online: bool, reason: Reason, uid: Uid)
    ensures
      var d := DecideResponse(login, a, online);
      && (d == Admit(uid) <==> IsComplete(login, a) && !online && a.record == Some(uid))
      && (d == RefuseResponse(reason) <==>
            || (reason == Generic && IsSettled(login, a) && a.record.value != INVALID_UID
                && login.characterLoadRequested && !a.characterLoaded)
            || (reason == Duplicated && IsComplete(login, a) && online))
      && (d == LoadCharacter(uid) <==> a.record == Some(uid) && uid != INVALID_UID && !login.characterLoadRequested)
      && (d.Admit? || d.RefuseResponse? <==>
            IsSettled(login, a) && (login.characterLoadRequested || a.record.value == INVALID_UID))
  {
  }

  /** Whether an entry is noted of a decision. */
  predicate IsNoted(w: World, id: ClientId, name: Name, d: ResponseDecision, creates: bool, e: Entry) {
    || (d.LoadCharacter? && e == CharacterLoadRequested(name, d.uid))
    || (d.RefuseResponse? && id in w.clients && e == Rejected(id, d.reason))
    || (d.Admit? && e == Created(id, name, d.uid))
    || (d.Admit? && id in w.clients && e == Accepted(id, creates || d.uid == INVALID_UID))
  }

  lemma ResponseNoted(
    w: World, id: ClientId, login: Login, a: Answers, d: ResponseDecision, creates: bool, e: Entry)
    requires !e.CharacterDataChecked?
    ensures
      e in ResponseFindings(id, login, a) + ResponseNotes(w, id, login.userName, d, creates)
      <==> IsNoted(w, id, login.userName, d, creates, e)
  {
    var name := login.userName;
    var notes := ResponseNotes(w, id, name, d, creates);
    assert e !in ResponseFindings(id, login, a);
    match d
    case WaitForData => assert notes == [];
    case LoadCharacter(uid) => assert notes == [CharacterLoadRequested(name, uid)];
    case RefuseResponse(reason) => assert id in w.clients ==> notes == [Rejected(id, reason)];
    case Admit(uid) =>
      var accepted := if id in w.clients then [Accepted(id, creates || uid == INVALID_UID)] else [];
      assert notes == [Created(id, name, uid)] + accepted;
  }

  lemma ResponseLogged(w: World, a: Answers, e: Entry)
    requires w.responses != [] && !e.CharacterDataChecked?
    ensures
      var id, login := w.responses[0], LoginOf(w, w.responses[0]);
      var d := DecideResponse(login, a, login.userName in w.users);
      Logged(w, ProcessLoginResponse(w, a), e) <==> IsNoted(w, id, login.userName, d, a.forcedIntoCreator, e)
  {
    var id, login := w.responses[0], LoginOf(w, w.responses[0]);
    var d := DecideResponse(login, a, login.userName in w.users);
    ResponseLogIs(w, a);
    Adds(w, ProcessLoginResponse(w, a), ResponseLog(w, a));
    ResponseNoted(w, id, login, a, d, a.forcedIntoCreator, e);
  }

  lemma ResponseQueue(w: World, a: Answers)
    requires w.responses != []
    ensures
      var login := LoginOf(w, w.responses[0]);
      var d := DecideResponse(login, a, login.userName in w.users);
      ProcessLoginResponse(w, a).responses == if d.Admit? || d.RefuseResponse? then w.responses[1..] else w.responses
  {
  }

  /** The head of the response queue is admitted exactly if its data are complete and the user is not online. Then it
      has a user instance with its character, and if it is connected it is authenticated and told whether to create a
      character: if it has none, or is made to. */
  lemma AdmittedIff(w: World, a: Answers, uid: Uid, creates: bool)
    requires w.responses != []
    ensures
      var id, login, v := w.responses[0], LoginOf(w, w.responses[0]), ProcessLoginResponse(w, a);
      && (Logged(w, v, Created(id, login.userName, uid))
          <==> IsComplete(login, a) && login.userName !in w.users && a.record == Some(uid))
      && (Logged(w, v, Accepted(id, creates))
          <==> IsComplete(login, a) && login.userName !in w.users && id in w.clients
               && (creates <==> a.forcedIntoCreator || a.record == Some(INVALID_UID)))
  {
    var id, login := w.responses[0], LoginOf(w, w.responses[0]);
    var uid' := if a.record.Some? then a.record.value else INVALID_UID;
    ResponseDecisionIs(login, a, login.userName in w.users, Generic, uid);
    ResponseDecisionIs(login, a, login.userName in w.users, Generic, uid');
    ResponseLogged(w, a, Created(id, login.userName, uid));
    ResponseLogged(w, a, Accepted(id, creates));
  }

  /** It is refused exactly for character data that could not be loaded, or as a duplicate if its data are complete and
      the user is online, and told so if it is connected. */
  lemma RefusedIff(w: World, a: Answers, reason: Reason)
    requires w.responses != []
    ensures
      var id, login, v := w.responses[0], LoginOf(w, w.responses[0]), ProcessLoginResponse(w, a);
      Logged(w, v, Rejected(id, reason))
      <==>
        && id in w.clients
        && (|| (reason == Generic && IsSettled(login, a) && a.record.value != INVALID_UID
                && login.characterLoadRequested && !a.characterLoaded)
            || (reason == Duplicated && IsComplete(login, a) && login.userName in w.users))
  {
    var id, login := w.responses[0], LoginOf(w, w.responses[0]);
    ResponseDecisionIs(login, a, login.userName in w.users, reason, INVALID_UID);
    ResponseLogged(w, a, Rejected(id, reason));
  }

  /** Until then it stays the head; it asks for the character data of a user that has a character, once. */
  lemma ResponseWaitsIff(w: World, a: Answers, uid: Uid)
    requires w.responses != []
    ensures
      var id, login, v := w.responses[0], LoginOf(w, w.responses[0]), ProcessLoginResponse(w, a);
      && v.responses ==
           (if IsSettled(login, a) && (login.characterLoadRequested || a.record.value == INVALID_UID)
            then w.responses[1..] else w.responses)
      && (Logged(w, v, CharacterLoadRequested(login.userName, uid))
          <==> a.record == Some(uid) && uid != INVALID_UID && !login.characterLoadRequested)
  {
    var id, login := w.responses[0], LoginOf(w, w.responses[0]);
    ResponseDecisionIs(login, a, login.userName in w.users, Generic, uid);
    ResponseLogged(w, a, CharacterLoadRequested(login.userName, uid));
    ResponseQueue(w, a);
  }

  /** After its admission a login is forgotten exactly if its client is connected and its address is found. */
  lemma AdmissionForgetsLoginIff(w: World, a: Answers)
    requires Admits(w, a)
    ensures
      w.responses[0] !in ProcessLoginResponse(w, a).logins
      <==> w.responses[0] in w.clients && a.addressKnown
  {
  }

  // ---------------------------------------------------------------------------------------------
  // The backend.

  /** What the backend has answered, in order. */
  function Answered(log: seq<Entry>): seq<Authentication> {
    if log == [] then []
    else
      Answered(log[..|log| - 1])
      + match log[|log| - 1]
        case VerdictGiven(verdict, token) => [Authentication(verdict.userName, token)]
        case _ => []
  }

  lemma {:induction false} AnsweredAdds(log: seq<Entry>, more: seq<Entry>)
    ensures Answered(log + more) == Answered(log) + Answered(more)
  {
    if more == [] {
      assert log + more == log;
    } else {
      var n := |more| - 1;
      assert (log + more)[..|log| + n] == log + more[..n];
      AnsweredAdds(log, more[..n]);
    }
  }

  lemma {:induction false} NothingAnswered(more: seq<Entry>)
    requires forall k | 0 <= k < |more| :: !more[k].VerdictGiven?
    ensures Answered(more) == []
  {
    if more != [] {
      NothingAnswered(more[..|more| - 1]);
    }
  }

  lemma NothingMoreAnswered(w: World, v: World, more: seq<Entry>)
    requires v.log == w.log + more && NoVerdicts(more)
    ensures Answered(v.log) == Answered(w.log)
  {
    AnsweredAdds(w.log, more);
    NothingAnswered(more);
  }

  function Asked(w: World): seq<Authentication> {
    Answered(w.log) + w.authentications
  }

  ghost predicate NoVerdicts(entries: seq<Entry>) {
    forall k | 0 <= k < |entries| :: !entries[k].VerdictGiven?
  }

  lemma RequestLogHasNoVerdicts(w: World, id: ClientId, login: Login, a: Answers, d: RequestDecision)
    ensures NoVerdicts(RequestFindings(id, login, a) + RequestNotes(w, id, login, d))
  {
    assert NoVerdicts(RequestFindings(id, login, a)) && NoVerdicts(RequestNotes(w, id, login, d));
  }

  lemma ResponseLogHasNoVerdicts(
    w: World, id: ClientId, login: Login, a: Answers, d: ResponseDecision, creates: bool)
    ensures NoVerdicts(ResponseFindings(id, login, a) + ResponseNotes(w, id, login.userName, d, creates))
  {
    assert NoVerdicts(ResponseFindings(id, login, a)) && NoVerdicts(ResponseNotes(w, id, login.userName, d, creates));
  }

  /** Nothing is asked, and nothing is answered. */
  ghost predicate AsksNothing(w: World, v: World, more: seq<Entry>) {
    v.log == w.log + more && NoVerdicts(more) && v.authentications == w.authentications
  }

  lemma SameAnswers(w: World, v: World, more: seq<Entry>)
    requires AsksNothing(w, v, more)
    ensures Asked(v) == Asked(w) && Answered(v.log) == Answered(w.log)
  {
    NothingMoreAnswered(w, v, more);
  }

  lemma LoginAsksNothing(w: World, id: ClientId, name: Name, token: Token) returns (more: seq<Entry>)
    requires id in w.clients
    ensures AsksNothing(w, HandleLogin(w, id, name, token), more)
  {
    more :=
      if name == "" || token == "" then [Rejected(id, InvalidLoginId)]
      else if IsLoggedIn(w, name) then [Rejected(id, Duplicated)]
      else [];
  }

  lemma JobAsksNothing(w: World) returns (more: seq<Entry>)
    ensures AsksNothing(w, SchedulerTick(w), more)
  {
    more :=
      if w.jobs != [] && w.jobs[0].LoginJob? && w.jobs[0].id in w.logins
      then [LoginQueued(w.jobs[0].id, w.jobs[0].name, w.jobs[0].token)] else [];
  }

  lemma ResponseAsksNothing(w: World, a: Answers) returns (more: seq<Entry>)
    ensures AsksNothing(w, ProcessLoginResponse(w, a), more)
  {
    more := if w.responses == [] then [] else ResponseLog(w, a);
    if w.responses != [] {
      var id, login := w.responses[0], LoginOf(w, w.responses[0]);
      ResponseLogIs(w, a);
      ResponseLogHasNoVerdicts(
        w, id, login, a, DecideResponse(login, a, login.userName in w.users), a.forcedIntoCreator);
      ResponseKeepsAuthentications(w, a);
    }
  }

  lemma ResponseKeepsAuthentications(w: World, a: Answers)
    ensures ProcessLoginResponse(w, a).authentications == w.authentications
  {
  }

  lemma RequestAnswersNothing(w: World, a: Answers)
    requires w.requests != []
    ensures Answered(ProcessLoginRequest(w, a).log) == Answered(w.log)
  {
    var id, login := w.requests[0], LoginOf(w, w.requests[0]);
    RequestLogIs(w, a);
    RequestLogHasNoVerdicts(w, id, login, a, DecideRequest(login, a));
    NothingMoreAnswered(w, ProcessLoginRequest(w, a), RequestLog(w, a));
  }

  lemma RequestAsksOnce(w: World, a: Answers)
    requires w.requests != []
    ensures
      var login := LoginOf(w, w.requests[0]);
      Asked(ProcessLoginRequest(w, a)) ==
      if login.authenticationRequested then Asked(w) else Asked(w) + [Authentication(login.userName, login.userToken)]
  {
    RequestAnswersNothing(w, a);
    RequestAsks(w, a, NO_NAME);
  }

  /** The backend answers what it is asked in order, each request at most once and with its own token: what has been
      answered and what waits is, in any possible step, what it was before and what the head of the request queue has
      just asked. */
  lemma AnswersComeInOrder(w: World, s: Step)
    requires Possible(w, s)
    ensures
      Asked(Next(w, s)) ==
      if s.Request? && w.requests != [] && !LoginOf(w, w.requests[0]).authenticationRequested
      then
        var login := LoginOf(w, w.requests[0]);
        Asked(w) + [Authentication(login.userName, login.userToken)]
      else Asked(w)
    ensures Answered(w.log) <= Answered(Next(w, s).log)
  {
    match s
    case AskBackend(result) => AnswerIsOldest(w, result);
    case Request(a) =>
      if w.requests != [] {
        RequestAsksOnce(w, a);
        RequestAnswersNothing(w, a);
      }
    case Response(a) =>
      var more := ResponseAsksNothing(w, a);
      SameAnswers(w, ProcessLoginResponse(w, a), more);
    case LogIn(id, name, token) =>
      var more := LoginAsksNothing(w, id, name, token);
      SameAnswers(w, HandleLogin(w, id, name, token), more);
    case RunNextJob =>
      var more := JobAsksNothing(w);
      SameAnswers(w, SchedulerTick(w), more);
    case Connect =>
    case Disconnect(id) =>
    case Poll =>
  }

  lemma AnswerIsOldest(w: World, result: Option<bool>)
    ensures Asked(Authenticate(w, result)) == Asked(w)
    ensures Answered(w.log) <= Answered(Authenticate(w, result).log)
  {
    if w.authentications != [] && result.Some? {
      var c := w.authentications[0];
      var e := VerdictGiven(Verdict(c.userName, result.value), c.userToken);
      assert [e][..0] == [] && Answered([]) == [];
      assert Answered([e]) == [c];
      AnsweredAdds(w.log, [e]);
    }
  }
}
