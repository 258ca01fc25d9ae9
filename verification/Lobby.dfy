/** The lobby of src/server/lobby as far as logins go, proved against LoginModel. */
module Lobby {
  import opened Wrappers
  import opened LoginModel
  import Model = LoginModel

  class Lobby {
    var clients: map<ClientId, Context>
    var nextId: ClientId
    var jobs: seq<Job>
    var logins: map<ClientId, Login>
    var requests: seq<ClientId>
    var responses: seq<ClientId>
    var users: map<Name, Uid>
    var authentications: seq<Authentication>
    var verdicts: seq<Verdict>
    ghost var log: seq<Entry>

    ghost function Now(): World
      reads this
    {
      World(clients, nextId, jobs, logins, requests, responses, users, authentications, verdicts, log)
    }

    method HandleClientConnected() returns (id: ClientId)
      modifies this
      ensures Now() == ClientConnected(old(Now())) && id == old(nextId)
    {
      id := nextId;
      nextId := nextId + 1;
      clients := clients[id := Context(NO_NAME, false)];
      jobs := jobs + [ConnectJob(id)];
    }

    method HandleLogin(id: ClientId, name: Name, token: Token)
      requires id in clients
      modifies this
      ensures Now() == Model.HandleLogin(old(Now()), id, name, token)
    {
      if name == "" || token == "" {
        RejectLogin(id, InvalidLoginId);
        return;
      }
      var others := clients.Keys;
      while others != {}
        invariant others <= clients.Keys && Now() == old(Now())
        invariant forall other | other in clients && other !in others :: clients[other] != Context(name, true)
        decreases |others|
      {
        var other :| other in others;
        if clients[other].userName == name && clients[other].isAuthenticated {
          assert clients[other] == Context(name, true);
          RejectLogin(id, Duplicated);
          return;
        }
        others := others - {other};
      }
      assert !IsLoggedIn(old(Now()), name);
      clients := clients[id := clients[id].(userName := name)];
      jobs := jobs + [LoginJob(id, name, token)];
    }

    method HandleClientDisconnected(id: ClientId)
      requires id in clients
      modifies this
      ensures Now() == ClientDisconnected(old(Now()), id)
    {
      jobs := jobs + [DisconnectJob(id, clients[id].isAuthenticated, clients[id].userName)];
      clients := clients - {id};
    }

    method AcceptLogin(id: ClientId, toCharacterCreator: bool)
      modifies this`clients, this`log
      ensures Now() == Accept(old(Now()), id, toCharacterCreator)
    {
      if id in clients {
        clients := clients[id := clients[id].(isAuthenticated := true)];
        log := log + [Accepted(id, toCharacterCreator)];
      }
    }

    method RejectLogin(id: ClientId, reason: Reason)
      modifies this`log
      ensures Now() == Reject(old(Now()), id, reason)
    {
      if id in clients {
        log := log + [Rejected(id, reason)];
      }
    }

    method RemoveAll(s: seq<ClientId>, id: ClientId) returns (r: seq<ClientId>)
      ensures r == Remove(s, id)
    {
      r := [];
      for i := 0 to |s|
        invariant r == Remove(s[..i], id)
      {
        assert s[..i + 1][..i] == s[..i];
        if s[i] != id {
          r := r + [s[i]];
        }
      }
      assert s[..|s|] == s;
    }

    method QueueClientConnect(id: ClientId) returns (inserted: bool)
      modifies this`logins
      ensures Now() == Model.QueueClientConnect(old(Now()), id) && inserted == (id !in old(logins))
    {
      inserted := id !in logins;
      if inserted {
        logins := logins[id := FRESH];
      }
    }

    method QueueClientLogin(id: ClientId, name: Name, token: Token) returns (position: nat)
      modifies this`logins, this`requests, this`log
      ensures Now() == Model.QueueClientLogin(old(Now()), id, name, token)
      ensures position == if id in old(logins) then |requests| + |responses| else 99
    {
      if id !in logins {
        return 99;
      }
      logins := logins[id := logins[id].(userName := name, userToken := token)];
      requests := requests + [id];
      log := log + [LoginQueued(id, name, token)];
      position := |requests| + |responses|;
    }

    method QueueClientDisconnect(id: ClientId)
      modifies this`logins, this`requests, this`responses
      ensures Now() == Model.QueueClientDisconnect(old(Now()), id)
    {
      requests := RemoveAll(requests, id);
      responses := RemoveAll(responses, id);
      logins := logins - {id};
    }

    method QueueClientLogout(name: Name)
      modifies this`users
      ensures Now() == old(Now()).(users := old(users) - {name})
    {
      users := users - {name};
    }

    method SchedulerTick()
      modifies this
      ensures Now() == Model.SchedulerTick(old(Now()))
    {
      if jobs == [] {
        return;
      }
      var job := jobs[0];
      jobs := jobs[1..];
      match job
      case ConnectJob(id) =>
        var _ := QueueClientConnect(id);
      case LoginJob(id, name, token) =>
        var _ := QueueClientLogin(id, name, token);
      case DisconnectJob(id, isAuthenticated, name) =>
        if isAuthenticated {
          QueueClientLogout(name);
        }
        QueueClientDisconnect(id);
    }

    method Authenticate(result: Option<bool>)
      modifies this`authentications, this`verdicts, this`log
      ensures Now() == Model.Authenticate(old(Now()), result)
    {
      if authentications == [] {
        return;
      }
      if result.None? {
        return;
      }
      var verdict := Verdict(authentications[0].userName, result.value);
      verdicts := verdicts + [verdict];
      log := log + [VerdictGiven(verdict, authentications[0].userToken)];
      authentications := authentications[1..];
    }

    method JudgeLogin(login: Login) returns (r: Login)
      ensures r == Judge(login, verdicts)
    {
      r := login;
      for i := 0 to |verdicts|
        invariant r == Judge(login, verdicts[..i])
      {
        assert verdicts[..i + 1][..i] == verdicts[..i];
        JudgeOverwrites(login, verdicts[..i]);
        if verdicts[i].userName == r.userName {
          r := r.(isAuthenticated := Some(verdicts[i].isAuthenticated));
        }
      }
      assert verdicts[..|verdicts|] == verdicts;
    }

    /** Every login is compared with every verdict. */
    method PollVerdicts()
      modifies this`logins, this`verdicts
      ensures Now() == Model.PollVerdicts(old(Now()))
    {
      var rest := logins.Keys;
      while rest != {}
        invariant rest <= logins.Keys && logins.Keys == old(logins).Keys && verdicts == old(verdicts)
        invariant forall id | id in logins ::
          logins[id] == if id in rest then old(logins)[id] else Judge(old(logins)[id], verdicts)
        decreases |rest|
      {
        var id :| id in rest;
        var judged := JudgeLogin(logins[id]);
        logins := logins[id := judged];
        rest := rest - {id};
      }
      assert logins == Model.PollVerdicts(old(Now())).logins;
      verdicts := [];
    }

    method ProcessLoginRequest(a: Answers)
      modifies this
      ensures Now() == Model.ProcessLoginRequest(old(Now()), a)
    {
      if requests == [] {
        return;
      }
      EnsureLogin(requests[0]);
      ProcessQueuedRequest(a);
    }

    /** Indexing creates a missing login. */
    method EnsureLogin(id: ClientId)
      modifies this`logins
      ensures Now() == old(Now()).(logins := old(logins)[id := LoginOf(old(Now()), id)])
    {
      if id !in logins {
        logins := logins[id := FRESH];
      }
      assert logins == old(logins)[id := LoginOf(old(Now()), id)];
    }

    method ProcessQueuedRequest(a: Answers)
      requires requests != [] && requests[0] in logins
      modifies this
      ensures
        var login := old(logins)[old(requests)[0]];
        Now() == PerformRequest(
          old(Now()).(log := old(log) + RequestFindings(old(requests)[0], login, a)),
          DecideRequest(login, a))
    {
      var id := requests[0];
      var login := logins[id];
      ghost var before := Now();
      assert RequestFindings(id, login, a) == [] ==> before.log + RequestFindings(id, login, a) == before.log;
      if !login.authenticationRequested {
        authentications := authentications + [Authentication(login.userName, login.userToken)];
        logins := logins[id := login.(authenticationRequested := true)];
        assert Now() == PerformRequest(before, AskAuthentication);
        return;
      }
      if login.isAuthenticated.None? {
        return;
      }
      if !login.isAuthenticated.value {
        requests := requests[1..];
        RejectLogin(id, InvalidUser);
        assert Now() == PerformRequest(before, RefuseRequest(InvalidUser));
        return;
      }
      if !login.userLoadRequested {
        log := log + [UserLoadRequested(login.userName)];
        logins := logins[id := login.(userLoadRequested := true)];
        assert Now() == PerformRequest(before, LoadUser);
        return;
      }
      if a.beingLoaded {
        return;
      }
      CheckUser(login, a);
    }

    /** The part of the request that has the data. */
    method CheckUser(login: Login, a: Answers)
      requires requests != [] && requests[0] in logins && logins[requests[0]] == login
      requires login.authenticationRequested && login.userLoadRequested
      requires login.isAuthenticated == Some(true) && !a.beingLoaded
      modifies this
      ensures
        Now() == PerformRequest(
          old(Now()).(log := old(log) + RequestFindings(old(requests)[0], login, a)),
          DecideRequest(login, a))
    {
      var id := requests[0];
      requests := requests[1..];
      log := log + [UserDataChecked(id, login.userName, a.userLoaded)];
      if !a.userLoaded {
        RejectLogin(id, Generic);
        return;
      }
      if a.record.None? {
        return;
      }
      log := log + [PunishmentsChecked(id, login.userName, a.banned)];
      assert log == old(log) + RequestFindings(id, login, a);
      if a.banned {
        RejectLogin(id, DisconnectYourself);
      } else {
        responses := responses + [id];
      }
    }

    method ProcessLoginResponse(a: Answers)
      modifies this
      ensures Now() == Model.ProcessLoginResponse(old(Now()), a)
    {
      if responses == [] {
        return;
      }
      EnsureLogin(responses[0]);
      ProcessQueuedResponse(a);
    }

    method ProcessQueuedResponse(a: Answers)
      requires responses != [] && responses[0] in logins
      modifies this
      ensures
        var login := old(logins)[old(responses)[0]];
        Now() == PerformResponse(
          old(Now()).(log := old(log) + ResponseFindings(old(responses)[0], login, a)),
          DecideResponse(login, a, login.userName in old(users)),
          a)
    {
      var id := responses[0];
      var login := logins[id];
      ghost var before := Now();
      assert ResponseFindings(id, login, a) == [] ==> before.log + ResponseFindings(id, login, a) == before.log;
      if login.characterLoadRequested {
        if a.beingLoaded {
          return;
        }
      }
      if a.record.None? {
        return;
      }
      var characterUid := a.record.value;
      var hasCharacter := characterUid != INVALID_UID;
      if hasCharacter {
        if !login.characterLoadRequested {
          log := log + [CharacterLoadRequested(login.userName, characterUid)];
          logins := logins[id := login.(characterLoadRequested := true)];
          assert Now() == PerformResponse(before, LoadCharacter(characterUid), a);
          return;
        }
      }
      AnswerLogin(login, a);
    }

    /** The part of the response that has the data. */
    method AnswerLogin(login: Login, a: Answers)
      requires responses != [] && responses[0] in logins && logins[responses[0]] == login
      requires !(login.characterLoadRequested && a.beingLoaded) && a.record.Some?
      requires a.record.value != INVALID_UID ==> login.characterLoadRequested
      modifies this
      ensures
        Now() == PerformResponse(
          old(Now()).(log := old(log) + ResponseFindings(old(responses)[0], login, a)),
          DecideResponse(login, a, login.userName in old(users)),
          a)
    {
      var id := responses[0];
      responses := responses[1..];
      if a.record.value != INVALID_UID {
        log := log + [CharacterDataChecked(id, login.userName, a.record.value, a.characterLoaded)];
        if !a.characterLoaded {
          RejectLogin(id, Generic);
          return;
        }
      }
      assert log == old(log) + ResponseFindings(id, login, a);
      if login.userName in users {
        RejectLogin(id, Duplicated);
        return;
      }
      AdmitUser(id, login.userName, a.record.value, a);
    }

    method AdmitUser(id: ClientId, name: Name, uid: Uid, a: Answers)
      requires name !in users
      modifies this
      ensures Now() == Model.AdmitUser(old(Now()), id, name, uid, a)
    {
      users := users[name := uid];
      log := log + [Created(id, name, uid)];
      AcceptLogin(id, a.forcedIntoCreator || uid == INVALID_UID);
      if id !in clients || !a.addressKnown {
        return;
      }
      logins := logins - {id};
    }
  }

  lemma JudgeOverwrites(login: Login, verdicts: seq<Verdict>)
    ensures Judge(login, verdicts).userName == login.userName
    ensures Judge(login, verdicts).(isAuthenticated := login.isAuthenticated) == login
  {
  }
}
