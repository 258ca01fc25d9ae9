/**
 Logins over whole runs, in any interleaving of the network, the authentication backend and the parts of the
 lobby tick, with any answers, as long as a connection gets at most one login past the door; and what a
 second login does.
 */
module LoginRuns {
  import opened Wrappers
  import opened LoginModel

  datatype Step =
    | Connect
    | LogIn(id: ClientId, name: Name, token: Token)
    | Disconnect(id: ClientId)
    | RunNextJob
    | AskBackend(result: Option<bool>)
    | Poll
    | Request(a: Answers)
    | Response(a: Answers)

  /** Only connected clients send anything. */
  predicate Possible(w: World, s: Step) {
    match s
    case LogIn(id, _, _) => id in w.clients
    case Disconnect(id) => id in w.clients
    case _ => true
  }

  predicate IsRefused(w: World, name: Name, token: Token) {
    name == "" || token == "" || IsLoggedIn(w, name)
  }

  /** A login of a connection that has had one must be one that is refused at once. */
  predicate Legal(w: World, s: Step) {
    && Possible(w, s)
    && (s.LogIn? ==> w.clients[s.id].userName == NO_NAME || IsRefused(w, s.name, s.token))
  }

  function Next(w: World, s: Step): World
    requires Possible(w, s)
  {
    match s
    case Connect => ClientConnected(w)
    case LogIn(id, name, token) => HandleLogin(w, id, name, token)
    case Disconnect(id) => ClientDisconnected(w, id)
    case RunNextJob => SchedulerTick(w)
    case AskBackend(result) => Authenticate(w, result)
    case Poll => PollVerdicts(w)
    case Request(a) => ProcessLoginRequest(w, a)
    case Response(a) => ProcessLoginResponse(w, a)
  }

  // ---------------------------------------------------------------------------------------------
  // The queues.

  ghost predicate Distinct(s: seq<ClientId>) {
    forall i, j | 0 <= i < j < |s| :: s[i] != s[j]
  }

  predicate InQueue(w: World, id: ClientId) {
    id in w.requests || id in w.responses
  }

  /** No client is in both queues or twice in one. */
  ghost predicate Exclusive(w: World) {
    Distinct(w.requests) && Distinct(w.responses) && forall id | id in w.requests :: id !in w.responses
  }

  /** Who is queued has a login with a name, the name the client gave. */
  ghost predicate Named(w: World) {
    forall id | InQueue(w, id) ::
      && id in w.logins && w.logins[id].userName != NO_NAME
      && (id in w.clients ==> w.clients[id].userName == w.logins[id].userName)
  }

  /** A login that is still a job is the only one of its client, who is not queued yet. */
  ghost predicate JobsFirst(w: World) {
    && (forall i | 0 <= i < |w.jobs| && w.jobs[i].LoginJob? ::
          var LoginJob(id, name, _) := w.jobs[i];
          && name != NO_NAME && !InQueue(w, id)
          && (id in w.logins ==> w.logins[id].userName == NO_NAME)
          && (id in w.clients ==> w.clients[id].userName == name))
    && (forall i, j | 0 <= i < j < |w.jobs| && w.jobs[i].LoginJob? && w.jobs[j].LoginJob? ::
          w.jobs[i].id != w.jobs[j].id)
  }

  ghost predicate Unnamed(w: World) {
    forall id | id in w.clients && id in w.logins && w.clients[id].userName == NO_NAME ::
      w.logins[id].userName == NO_NAME
  }

  ghost predicate Numbered(w: World) {
    && (forall id | id in w.clients :: id < w.nextId)
    && (forall id | id in w.logins :: id < w.nextId)
    && (forall i | 0 <= i < |w.jobs| :: w.jobs[i].id < w.nextId)
  }

  ghost predicate QueueInv(w: World) {
    Exclusive(w) && Named(w) && JobsFirst(w) && Unnamed(w) && Numbered(w)
  }

  lemma {:induction false} RemoveIs(s: seq<ClientId>, id: ClientId)
    ensures forall x :: x in Remove(s, id) <==> x in s && x != id
    ensures Distinct(s) ==> Distinct(Remove(s, id))
  {
    if s != [] {
      var before := s[..|s| - 1];
      RemoveIs(before, id);
      assert forall x :: x in s <==> x in before || x == s[|s| - 1];
      assert Distinct(s) ==> s[|s| - 1] !in before;
    }
  }

  lemma {:induction false} RemoveAdds(s: seq<ClientId>, t: seq<ClientId>, id: ClientId)
    ensures Remove(s + t, id) == Remove(s, id) + Remove(t, id)
  {
    if t == [] {
      assert s + t == s;
    } else {
      assert (s + t)[..|s + t| - 1] == s + t[..|t| - 1];
      RemoveAdds(s, t[..|t| - 1], id);
    }
  }

  lemma RemoveOne(x: ClientId, id: ClientId)
    ensures Remove([x], id) == if x == id then [] else [x]
  {
    assert [x][..0] == [];
  }

  lemma {:induction false} NothingToRemove(s: seq<ClientId>, id: ClientId)
    ensures id !in s ==> Remove(s, id) == s
  {
    if s != [] {
      NothingToRemove(s[..|s| - 1], id);
    }
  }

  lemma ClosedUp(s: seq<ClientId>, before: seq<ClientId>, id: ClientId, behind: seq<ClientId>)
    requires id !in before && id !in behind
    ensures id !in Remove(s, id) && (id !in s ==> Remove(s, id) == s)
    ensures s == before + [id] + behind ==> Remove(s, id) == before + behind
  {
    RemoveIs(s, id);
    NothingToRemove(s, id);
    if s == before + [id] + behind {
      RemoveAdds(before + [id], behind, id);
      RemoveAdds(before, [id], id);
      RemoveOne(id, id);
      NothingToRemove(before, id);
      NothingToRemove(behind, id);
    }
  }

  lemma DisconnectJobIs(w: World)
    requires w.jobs != [] && w.jobs[0].DisconnectJob?
    ensures
      var id, v := w.jobs[0].id, SchedulerTick(w);
      && v.requests == Remove(w.requests, id) && v.responses == Remove(w.responses, id)
      && v.logins == w.logins - {id}
  {
  }

  /** After its disconnect job a client is in no queue and has no login; its place is closed up, and the order of the
      others stays. */
  lemma DisconnectForgets(w: World, before: seq<ClientId>, id: ClientId, behind: seq<ClientId>)
    requires w.jobs != [] && w.jobs[0].DisconnectJob? && w.jobs[0].id == id && id !in before && id !in behind
    ensures
      var v := SchedulerTick(w);
      && id !in v.requests && id !in v.responses && id !in v.logins && v.logins == w.logins - {id}
      && (w.requests == before + [id] + behind ==> v.requests == before + behind)
      && (w.responses == before + [id] + behind ==> v.responses == before + behind)
      && (id !in w.requests ==> v.requests == w.requests) && (id !in w.responses ==> v.responses == w.responses)
  {
    DisconnectJobIs(w);
    ClosedUp(w.requests, before, id, behind);
    ClosedUp(w.responses, before, id, behind);
  }

  lemma ConnectKeepsQueues(w: World)
    requires QueueInv(w)
    ensures QueueInv(ClientConnected(w))
  {
  }

  lemma AcceptedLoginKeepsQueues(w: World, id: ClientId, name: Name, token: Token)
    requires QueueInv(w) && id in w.clients && w.clients[id].userName == NO_NAME && !IsRefused(w, name, token)
    ensures QueueInv(HandleLogin(w, id, name, token))
  {
    assert !InQueue(w, id);
    assert forall i | 0 <= i < |w.jobs| && w.jobs[i].LoginJob? :: w.jobs[i].id != id;
  }

  lemma LoginKeepsQueues(w: World, id: ClientId, name: Name, token: Token)
    requires QueueInv(w) && Legal(w, LogIn(id, name, token))
    ensures QueueInv(HandleLogin(w, id, name, token))
  {
    if !IsRefused(w, name, token) {
      AcceptedLoginKeepsQueues(w, id, name, token);
    }
  }

  lemma DisconnectKeepsQueues(w: World, id: ClientId)
    requires QueueInv(w) && id in w.clients
    ensures QueueInv(ClientDisconnected(w, id))
  {
  }

  lemma PopJobKeepsQueues(w: World)
    requires QueueInv(w) && w.jobs != []
    ensures
      var v := w.(jobs := w.jobs[1..]);
      && QueueInv(v)
      && (w.jobs[0].LoginJob? ==> forall i | 0 <= i < |v.jobs| && v.jobs[i].LoginJob? :: v.jobs[i].id != w.jobs[0].id)
  {
    assert forall i | 0 <= i < |w.jobs[1..]| :: w.jobs[1..][i] == w.jobs[i + 1];
  }

  lemma QueueLoginKeepsQueues(w: World, id: ClientId, name: Name, token: Token)
    requires QueueInv(w) && !InQueue(w, id) && name != NO_NAME
    requires id in w.clients ==> w.clients[id].userName == name
    requires forall i | 0 <= i < |w.jobs| && w.jobs[i].LoginJob? :: w.jobs[i].id != id
    ensures QueueInv(QueueClientLogin(w, id, name, token))
  {
  }

  lemma QueueDisconnectKeepsQueues(w: World, id: ClientId)
    requires QueueInv(w)
    ensures QueueInv(QueueClientDisconnect(w, id))
  {
    RemoveIs(w.requests, id);
    RemoveIs(w.responses, id);
  }

  lemma QueueConnectKeepsQueues(w: World, id: ClientId)
    requires QueueInv(w) && id < w.nextId
    ensures QueueInv(QueueClientConnect(w, id))
  {
  }

  lemma JobKeepsQueues(w: World)
    requires QueueInv(w)
    ensures QueueInv(SchedulerTick(w))
  {
    if w.jobs != [] {
      var v := w.(jobs := w.jobs[1..]);
      PopJobKeepsQueues(w);
      match w.jobs[0]
      case ConnectJob(id) => QueueConnectKeepsQueues(v, id);
      case LoginJob(id, name, token) => QueueLoginKeepsQueues(v, id, name, token);
      case DisconnectJob(id, isAuthenticated, name) =>
        QueueDisconnectKeepsQueues(if isAuthenticated then v.(users := v.users - {name}) else v, id);
    }
  }

  lemma PollKeepsQueues(w: World)
    requires QueueInv(w)
    ensures QueueInv(PollVerdicts(w))
  {
    forall id | id in w.logins
      ensures Judge(w.logins[id], w.verdicts).userName == w.logins[id].userName
    {
      JudgeIs(w.logins[id], w.verdicts);
    }
  }

  lemma {:induction false} JudgeIs(login: Login, verdicts: seq<Verdict>)
    ensures
      var r := Judge(login, verdicts);
      && r == login.(isAuthenticated := r.isAuthenticated)
      && (r.isAuthenticated == login.isAuthenticated
          || (exists v | v in verdicts :: v.userName == login.userName && r.isAuthenticated == Some(v.isAuthenticated)))
  {
    if verdicts != [] {
      JudgeIs(login, verdicts[..|verdicts| - 1]);
    }
  }

  /** The i-th verdict is the last on the name. */
  predicate LastOn(verdicts: seq<Verdict>, i: int, name: Name) {
    && 0 <= i < |verdicts| && verdicts[i].userName == name
    && forall j | i < j < |verdicts| :: verdicts[j].userName != name
  }

  lemma {:induction false} JudgeDecides(login: Login, verdicts: seq<Verdict>)
    ensures Judge(login, verdicts).isAuthenticated == Some(true)
      <==>
        || (exists i :: LastOn(verdicts, i, login.userName) && verdicts[i].isAuthenticated)
        || ((forall i :: !LastOn(verdicts, i, login.userName)) && login.isAuthenticated == Some(true))
  {
    if verdicts != [] {
      var n := |verdicts| - 1;
      if verdicts[n].userName == login.userName {
        assert LastOn(verdicts, n, login.userName);
        assert forall i :: LastOn(verdicts, i, login.userName) <==> i == n;
      } else {
        JudgeDecides(login, verdicts[..n]);
        assert forall i :: LastOn(verdicts, i, login.userName) <==> LastOn(verdicts[..n], i, login.userName);
      }
    }
  }

  /** A poll leaves a login authenticated exactly if the last verdict on its name is positive, or there is none and
      it was authenticated before. The token of the login plays no part in it. */
  lemma PollDecides(w: World, id: ClientId)
    requires id in w.logins
    ensures
      var name, v := w.logins[id].userName, PollVerdicts(w);
      && id in v.logins && v.logins[id].(isAuthenticated := w.logins[id].isAuthenticated) == w.logins[id]
      && (v.logins[id].isAuthenticated == Some(true)
          <==>
            || (exists i :: LastOn(w.verdicts, i, name) && w.verdicts[i].isAuthenticated)
            || ((forall i :: !LastOn(w.verdicts, i, name)) && w.logins[id].isAuthenticated == Some(true)))
  {
    JudgeIs(w.logins[id], w.verdicts);
    JudgeDecides(w.logins[id], w.verdicts);
  }

  /** Only the log is longer, by entries about what was found out. */
  ghost predicate Observed(w: World, v: World) {
    && v.(log := w.log) == w && w.log <= v.log
    && forall k | |w.log| <= k < |v.log| :: !v.log[k].Created? && !v.log[k].LoginQueued?
  }

  lemma RequestIs(w: World, a: Answers)
    requires QueueInv(w) && w.requests != []
    ensures
      var id := w.requests[0];
      var v := w.(log := w.log + RequestFindings(id, w.logins[id], a));
      && ProcessLoginRequest(w, a) == PerformRequest(v, DecideRequest(w.logins[id], a))
      && Observed(w, v) && InQueue(v, id) && QueueInv(v)
  {
    var id := w.requests[0];
    assert InQueue(w, id);
    assert w.logins[id := w.logins[id]] == w.logins;
  }

  lemma ResponseIs(w: World, a: Answers)
    requires QueueInv(w) && w.responses != []
    ensures
      var id := w.responses[0];
      var v := w.(log := w.log + ResponseFindings(id, w.logins[id], a));
      && ProcessLoginResponse(w, a) ==
           PerformResponse(v, DecideResponse(w.logins[id], a, w.logins[id].userName in w.users), a)
      && Observed(w, v) && InQueue(v, id) && QueueInv(v)
  {
    var id := w.responses[0];
    assert InQueue(w, id);
    assert w.logins[id := w.logins[id]] == w.logins;
  }

  lemma TailIsDistinct(s: seq<ClientId>)
    requires Distinct(s) && s != []
    ensures Distinct(s[1..]) && s[0] !in s[1..] && forall x :: x in s <==> x == s[0] || x in s[1..]
  {
  }

  lemma PerformRequestKeepsQueues(w: World, d: RequestDecision)
    requires QueueInv(w) && w.requests != [] && InQueue(w, w.requests[0])
    ensures QueueInv(PerformRequest(w, d))
  {
    TailIsDistinct(w.requests);
  }

  lemma PerformResponseKeepsQueues(w: World, d: ResponseDecision, a: Answers)
    requires QueueInv(w) && w.responses != [] && InQueue(w, w.responses[0])
    ensures QueueInv(PerformResponse(w, d, a))
  {
    TailIsDistinct(w.responses);
    if d.Admit? {
      AdmitKeepsQueues(w.(responses := w.responses[1..]), w.responses[0], w.logins[w.responses[0]].userName, d.uid, a);
    }
  }

  lemma AdmitKeepsQueues(w: World, id: ClientId, name: Name, uid: Uid, a: Answers)
    requires QueueInv(w) && !InQueue(w, id)
    ensures QueueInv(AdmitUser(w, id, name, uid, a))
  {
  }

  lemma NextKeepsQueues(w: World, s: Step)
    requires QueueInv(w) && Legal(w, s)
    ensures QueueInv(Next(w, s))
  {
    match s
    case Connect => ConnectKeepsQueues(w);
    case LogIn(id, name, token) => LoginKeepsQueues(w, id, name, token);
    case Disconnect(id) => DisconnectKeepsQueues(w, id);
    case RunNextJob => JobKeepsQueues(w);
    case AskBackend(result) =>
    case Poll => PollKeepsQueues(w);
    case Request(a) =>
      if w.requests != [] {
        var id := w.requests[0];
        RequestIs(w, a);
        PerformRequestKeepsQueues(
          w.(log := w.log + RequestFindings(id, w.logins[id], a)), DecideRequest(w.logins[id], a));
      }
    case Response(a) =>
      if w.responses != [] {
        var id := w.responses[0];
        ResponseIs(w, a);
        PerformResponseKeepsQueues(
          w.(log := w.log + ResponseFindings(id, w.logins[id], a)),
          DecideResponse(w.logins[id], a, w.logins[id].userName in w.users), a);
      }
  }

  // ---------------------------------------------------------------------------------------------
  // Authentication.

  /** Somebody logged in under the name with this token. */
  ghost predicate Asked(log: seq<Entry>, name: Name, token: Token) {
    exists id :: LoginQueued(id, name, token) in log
  }

  /** There was a positive verdict on the name, for a token somebody logged in with under it. */
  ghost predicate Positive(log: seq<Entry>, name: Name) {
    exists token :: VerdictGiven(Verdict(name, true), token) in log && Asked(log, name, token)
  }

  /** Whoever counts as authenticated has had a positive verdict on the name. */
  ghost predicate AuthInv(w: World) {
    && (forall id | id in w.logins && w.logins[id].userName == NO_NAME :: w.logins[id] == FRESH)
    && (forall id | id in w.requests && id in w.logins ::
          LoginQueued(id, w.logins[id].userName, w.logins[id].userToken) in w.log)
    && (forall c | c in w.authentications :: c.userName != NO_NAME && Asked(w.log, c.userName, c.userToken))
    && (forall v | v in w.verdicts :: v.userName != NO_NAME && (v.isAuthenticated ==> Positive(w.log, v.userName)))
    && (forall id | id in w.logins && w.logins[id].isAuthenticated == Some(true) ::
          Positive(w.log, w.logins[id].userName))
  }

  lemma LogKeepsVerdicts(log: seq<Entry>, more: seq<Entry>)
    requires log <= more
    ensures forall e | e in log :: e in more
    ensures forall name, token | Asked(log, name, token) :: Asked(more, name, token)
    ensures forall name | Positive(log, name) :: Positive(more, name)
  {
    forall name, token | Asked(log, name, token)
      ensures Asked(more, name, token)
    {
      var id :| LoginQueued(id, name, token) in log;
      assert LoginQueued(id, name, token) in more;
    }
    forall name | Positive(log, name)
      ensures Positive(more, name)
    {
      var token :| VerdictGiven(Verdict(name, true), token) in log && Asked(log, name, token);
      assert VerdictGiven(Verdict(name, true), token) in more;
    }
  }

  lemma PollKeepsAuth(w: World)
    requires AuthInv(w)
    ensures AuthInv(PollVerdicts(w))
  {
    var r := PollVerdicts(w);
    forall id | id in r.logins
      ensures r.logins[id].(isAuthenticated := w.logins[id].isAuthenticated) == w.logins[id]
      ensures r.logins[id].userName == NO_NAME ==> r.logins[id] == FRESH
      ensures r.logins[id].isAuthenticated == Some(true) ==> Positive(r.log, r.logins[id].userName)
    {
      JudgeIs(w.logins[id], w.verdicts);
      if r.logins[id].isAuthenticated != w.logins[id].isAuthenticated {
        var v :| v in w.verdicts && v.userName == w.logins[id].userName
          && r.logins[id].isAuthenticated == Some(v.isAuthenticated);
      }
    }
  }

  lemma BackendKeepsAuth(w: World, result: Option<bool>)
    requires AuthInv(w)
    ensures AuthInv(Authenticate(w, result))
  {
    var r := Authenticate(w, result);
    LogKeepsVerdicts(w.log, r.log);
    if w.authentications != [] && result.Some? {
      var c := w.authentications[0];
      assert c in w.authentications;
      assert forall d | d in r.authentications :: d in w.authentications;
      var v := r.verdicts[|w.verdicts|];
      assert r.log[|w.log|] == VerdictGiven(v, c.userToken);
      assert v.isAuthenticated ==> Positive(r.log, v.userName) by {
        assert VerdictGiven(Verdict(c.userName, result.value), c.userToken) in r.log;
      }
      assert forall x | x in r.verdicts :: x in w.verdicts || x == v;
    }
  }

  lemma QueueLoginKeepsAuth(w: World, id: ClientId, name: Name, token: Token)
    requires AuthInv(w) && name != NO_NAME && id !in w.requests
    requires id in w.logins ==> w.logins[id].userName == NO_NAME
    ensures AuthInv(QueueClientLogin(w, id, name, token))
  {
    var r := QueueClientLogin(w, id, name, token);
    LogKeepsVerdicts(w.log, r.log);
    if id in w.logins {
      assert r.log[|w.log|] == LoginQueued(id, name, token);
    }
  }

  lemma JobKeepsAuth(w: World)
    requires AuthInv(w) && QueueInv(w)
    ensures AuthInv(SchedulerTick(w))
  {
    if w.jobs != [] {
      var v := w.(jobs := w.jobs[1..]);
      match w.jobs[0]
      case LoginJob(id, name, token) =>
        assert w.jobs[0].LoginJob? && !InQueue(w, id);
        QueueLoginKeepsAuth(v, id, name, token);
      case DisconnectJob(id, isAuthenticated, name) => RemoveIs(w.requests, id);
      case ConnectJob(id) => assert id in w.requests ==> InQueue(w, id);
    }
  }

  lemma ObservedKeepsAuth(w: World, v: World)
    requires AuthInv(w) && Observed(w, v)
    ensures AuthInv(v)
  {
    LogKeepsVerdicts(w.log, v.log);
  }

  lemma AskingKeepsAuth(w: World)
    requires AuthInv(w) && QueueInv(w) && w.requests != [] && InQueue(w, w.requests[0])
    ensures AuthInv(PerformRequest(w, AskAuthentication))
  {
    var id := w.requests[0];
    assert id in w.requests;
    assert Asked(w.log, w.logins[id].userName, w.logins[id].userToken);
  }

  lemma PerformRequestKeepsAuth(w: World, d: RequestDecision)
    requires AuthInv(w) && QueueInv(w) && w.requests != [] && InQueue(w, w.requests[0])
    ensures AuthInv(PerformRequest(w, d))
  {
    if d.AskAuthentication? {
      AskingKeepsAuth(w);
    } else {
      LogKeepsVerdicts(w.log, PerformRequest(w, d).log);
    }
  }

  /** Nothing is asked or answered, no login changes but for what it has loaded, and the log may grow. */
  lemma MoreKeepsAuth(w: World, v: World)
    requires AuthInv(w) && w.log <= v.log && v.requests == w.requests
    requires v.authentications == w.authentications && v.verdicts == w.verdicts
    requires forall id | id in v.logins ::
      && id in w.logins
      && v.logins[id].(characterLoadRequested := w.logins[id].characterLoadRequested) == w.logins[id]
      && (w.logins[id].userName == NO_NAME ==> v.logins[id] == w.logins[id])
    ensures AuthInv(v)
  {
    LogKeepsVerdicts(w.log, v.log);
  }

  lemma PerformResponseKeepsAuth(w: World, d: ResponseDecision, a: Answers)
    requires AuthInv(w) && QueueInv(w) && w.responses != [] && InQueue(w, w.responses[0])
    ensures AuthInv(PerformResponse(w, d, a))
  {
    MoreKeepsAuth(w, PerformResponse(w, d, a));
  }

  lemma RequestKeepsAuth(w: World, a: Answers)
    requires AuthInv(w) && QueueInv(w)
    ensures AuthInv(ProcessLoginRequest(w, a))
  {
    if w.requests != [] {
      var id := w.requests[0];
      var v := w.(log := w.log + RequestFindings(id, w.logins[id], a));
      RequestIs(w, a);
      ObservedKeepsAuth(w, v);
      PerformRequestKeepsAuth(v, DecideRequest(w.logins[id], a));
    }
  }

  lemma ResponseKeepsAuth(w: World, a: Answers)
    requires AuthInv(w) && QueueInv(w)
    ensures AuthInv(ProcessLoginResponse(w, a))
  {
    if w.responses != [] {
      var id := w.responses[0];
      var v := w.(log := w.log + ResponseFindings(id, w.logins[id], a));
      ResponseIs(w, a);
      ObservedKeepsAuth(w, v);
      PerformResponseKeepsAuth(v, DecideResponse(w.logins[id], a, w.logins[id].userName in w.users), a);
    }
  }

  lemma NextKeepsAuth(w: World, s: Step)
    requires AuthInv(w) && QueueInv(w) && Legal(w, s)
    ensures AuthInv(Next(w, s))
  {
    match s
    case RunNextJob => JobKeepsAuth(w);
    case AskBackend(result) => BackendKeepsAuth(w, result);
    case Poll => PollKeepsAuth(w);
    case Request(a) => RequestKeepsAuth(w, a);
    case Response(a) => ResponseKeepsAuth(w, a);
    case LogIn(id, name, token) => MoreKeepsAuth(w, HandleLogin(w, id, name, token));
    case Connect => MoreKeepsAuth(w, ClientConnected(w));
    case Disconnect(id) => MoreKeepsAuth(w, ClientDisconnected(w, id));
  }

  // ---------------------------------------------------------------------------------------------
  // Admission.

  /** The client has logged in under the name and passed: a positive verdict on the name, loaded user data and
      no ban. */
  ghost predicate Cleared(log: seq<Entry>, id: ClientId, name: Name) {
    && (exists token :: LoginQueued(id, name, token) in log) && Positive(log, name)
    && UserDataChecked(id, name, true) in log && PunishmentsChecked(id, name, false) in log
  }

  ghost predicate Earned(log: seq<Entry>, e: Entry) {
    e.Created? ==>
      Cleared(log, e.id, e.name) && (e.uid != INVALID_UID ==> CharacterDataChecked(e.id, e.name, e.uid, true) in log)
  }

  ghost predicate AllEarned(log: seq<Entry>) {
    forall k | 0 <= k < |log| :: Earned(log[..k], log[k])
  }

  ghost predicate AllCleared(w: World) {
    forall id | id in w.responses && id in w.logins :: Cleared(w.log, id, w.logins[id].userName)
  }

  ghost predicate AdmissionInv(w: World) {
    AllCleared(w) && AllEarned(w.log)
  }

  lemma LogKeepsCleared(log: seq<Entry>, more: seq<Entry>)
    requires log <= more
    ensures forall e | e in log :: e in more
    ensures forall id, name | Cleared(log, id, name) :: Cleared(more, id, name)
  {
    LogKeepsVerdicts(log, more);
    forall id, name | Cleared(log, id, name)
      ensures Cleared(more, id, name)
    {
      var token :| LoginQueued(id, name, token) in log;
      assert LoginQueued(id, name, token) in more;
    }
  }

  lemma OneMoreEntry(log: seq<Entry>, e: Entry)
    requires AllEarned(log) && Earned(log, e)
    ensures AllEarned(log + [e])
  {
    forall k | 0 <= k < |log + [e]|
      ensures Earned((log + [e])[..k], (log + [e])[k])
    {
      assert (log + [e])[..k] == if k < |log| then log[..k] else log;
    }
  }

  /** Entries other than creations may be added freely. */
  lemma {:induction false} MoreEntries(log: seq<Entry>, more: seq<Entry>)
    requires AllEarned(log) && log <= more && forall k | |log| <= k < |more| :: !more[k].Created?
    ensures AllEarned(more)
    decreases |more|
  {
    if more != log {
      var n := |more| - 1;
      MoreEntries(log, more[..n]);
      OneMoreEntry(more[..n], more[n]);
      assert more[..n] + [more[n]] == more;
    } else {
      assert more == log;
    }
  }

  /** A longer log, no new client in the response queue, and no login under another name. */
  lemma MoreKeepsAdmission(w: World, v: World)
    requires AdmissionInv(w) && w.log <= v.log && forall k | |w.log| <= k < |v.log| :: !v.log[k].Created?
    requires forall id | id in v.responses && id in v.logins ::
      id in w.responses && id in w.logins && v.logins[id].userName == w.logins[id].userName
    ensures AdmissionInv(v)
  {
    MoreEntries(w.log, v.log);
    LogKeepsCleared(w.log, v.log);
  }

  lemma QueueLoginKeepsAdmission(w: World, id: ClientId, name: Name, token: Token)
    requires AdmissionInv(w) && id !in w.responses
    ensures AdmissionInv(QueueClientLogin(w, id, name, token))
  {
    MoreKeepsAdmission(w, QueueClientLogin(w, id, name, token));
  }

  lemma QueueDisconnectKeepsAdmission(w: World, id: ClientId)
    requires AdmissionInv(w)
    ensures AdmissionInv(QueueClientDisconnect(w, id))
  {
    RemoveIs(w.responses, id);
  }

  lemma JobKeepsAdmission(w: World)
    requires AdmissionInv(w) && QueueInv(w)
    ensures AdmissionInv(SchedulerTick(w))
  {
    if w.jobs != [] {
      var v := w.(jobs := w.jobs[1..]);
      match w.jobs[0]
      case ConnectJob(id) => assert id in w.responses ==> InQueue(w, id);
      case LoginJob(id, name, token) =>
        assert w.jobs[0].LoginJob? && !InQueue(w, id);
        QueueLoginKeepsAdmission(v, id, name, token);
      case DisconnectJob(id, isAuthenticated, name) =>
        QueueDisconnectKeepsAdmission(if isAuthenticated then v.(users := v.users - {name}) else v, id);
    }
  }

  lemma PollKeepsAdmission(w: World)
    requires AdmissionInv(w)
    ensures AdmissionInv(PollVerdicts(w))
  {
    forall id | id in w.logins
      ensures Judge(w.logins[id], w.verdicts).userName == w.logins[id].userName
    {
      JudgeIs(w.logins[id], w.verdicts);
    }
    MoreKeepsAdmission(w, PollVerdicts(w));
  }

  lemma RequestKeepsAdmission(w: World, a: Answers)
    requires AdmissionInv(w) && AuthInv(w) && QueueInv(w)
    ensures AdmissionInv(ProcessLoginRequest(w, a))
  {
    if w.requests != [] {
      var id := w.requests[0];
      var v := w.(log := w.log + RequestFindings(id, w.logins[id], a));
      RequestIs(w, a);
      MoreKeepsAdmission(w, v);
      PerformRequestKeepsAdmission(v, DecideRequest(w.logins[id], a));
      if DecideRequest(w.logins[id], a).PassOn? {
        assert id in w.requests && Positive(w.log, w.logins[id].userName);
        PassOnIsCleared(w, id, a);
      }
    }
  }

  lemma PassOnIsCleared(w: World, id: ClientId, a: Answers)
    requires id in w.logins && DecideRequest(w.logins[id], a).PassOn? && Positive(w.log, w.logins[id].userName)
    requires LoginQueued(id, w.logins[id].userName, w.logins[id].userToken) in w.log
    ensures Cleared(w.log + RequestFindings(id, w.logins[id], a), id, w.logins[id].userName)
  {
    var login := w.logins[id];
    var found := [UserDataChecked(id, login.userName, true), PunishmentsChecked(id, login.userName, false)];
    assert RequestFindings(id, login, a) == found;
    assert found[0] in found && found[1] in found;
    LogKeepsVerdicts(w.log, w.log + found);
  }

  lemma PerformRequestKeepsAdmission(w: World, d: RequestDecision)
    requires AdmissionInv(w) && QueueInv(w) && w.requests != [] && InQueue(w, w.requests[0])
    requires d.PassOn? ==> Cleared(w.log, w.requests[0], w.logins[w.requests[0]].userName)
    ensures AdmissionInv(PerformRequest(w, d))
  {
    var v := PerformRequest(w, d);
    MoreEntries(w.log, v.log);
    LogKeepsCleared(w.log, v.log);
  }

  lemma ResponseKeepsAdmission(w: World, a: Answers)
    requires AdmissionInv(w) && QueueInv(w)
    ensures AdmissionInv(ProcessLoginResponse(w, a))
  {
    if w.responses != [] {
      var id, login := w.responses[0], w.logins[w.responses[0]];
      var v := w.(log := w.log + ResponseFindings(id, login, a));
      ResponseIs(w, a);
      MoreKeepsAdmission(w, v);
      var d := DecideResponse(login, a, login.userName in w.users);
      if d.Admit? && d.uid != INVALID_UID {
        var found := [CharacterDataChecked(id, login.userName, d.uid, true)];
        assert ResponseFindings(id, login, a) == found && found[0] in found;
      }
      PerformResponseKeepsAdmission(v, d, a);
    }
  }

  lemma PerformResponseKeepsAdmission(w: World, d: ResponseDecision, a: Answers)
    requires AdmissionInv(w) && QueueInv(w) && w.responses != [] && InQueue(w, w.responses[0])
    requires
      var id, name := w.responses[0], w.logins[w.responses[0]].userName;
      d.Admit? && d.uid != INVALID_UID ==> CharacterDataChecked(id, name, d.uid, true) in w.log
    ensures AdmissionInv(PerformResponse(w, d, a))
  {
    var v := PerformResponse(w, d, a);
    assert w.responses[0] in w.responses;
    if d.Admit? {
      var id, name := w.responses[0], w.logins[w.responses[0]].userName;
      var log := w.log + [Created(id, name, d.uid)];
      OneMoreEntry(w.log, Created(id, name, d.uid));
      MoreEntries(log, v.log);
    } else {
      MoreEntries(w.log, v.log);
    }
    LogKeepsCleared(w.log, v.log);
  }

  lemma NextKeepsAdmission(w: World, s: Step)
    requires AdmissionInv(w) && AuthInv(w) && QueueInv(w) && Legal(w, s)
    ensures AdmissionInv(Next(w, s))
  {
    match s
    case RunNextJob => JobKeepsAdmission(w);
    case AskBackend(result) => MoreKeepsAdmission(w, Authenticate(w, result));
    case Poll => PollKeepsAdmission(w);
    case Request(a) => RequestKeepsAdmission(w, a);
    case Response(a) => ResponseKeepsAdmission(w, a);
    case LogIn(id, name, token) => MoreKeepsAdmission(w, HandleLogin(w, id, name, token));
    case _ =>
  }

  // ---------------------------------------------------------------------------------------------
  // Tokens.

  ghost predicate NeverQueued(w: World, id: ClientId) {
    forall e | e in w.log && e.LoginQueued? :: e.id != id
  }

  /** A client is queued for a login at most once, so it has one token. */
  ghost predicate TokenInv(w: World) {
    && (forall e, f | e in w.log && f in w.log && e.LoginQueued? && f.LoginQueued? && e.id == f.id :: e == f)
    && (forall e | e in w.log && e.LoginQueued? :: e.id < w.nextId)
    && (forall i | 0 <= i < |w.jobs| && w.jobs[i].LoginJob? :: NeverQueued(w, w.jobs[i].id))
    && (forall id | id in w.clients && w.clients[id].userName == NO_NAME :: NeverQueued(w, id))
  }

  /** Nothing about the queued logins changes. */
  ghost predicate SameTokens(w: World, v: World) {
    && w.log <= v.log && (forall k | |w.log| <= k < |v.log| :: !v.log[k].LoginQueued?)
    && v.nextId == w.nextId && v.jobs == w.jobs && v.clients.Keys == w.clients.Keys
    && forall id | id in w.clients :: v.clients[id].userName == w.clients[id].userName
  }

  lemma SameTokensKeep(w: World, v: World)
    requires TokenInv(w) && SameTokens(w, v)
    ensures TokenInv(v)
  {
    assert forall e | e in v.log && e.LoginQueued? :: e in w.log;
  }

  lemma QueueLoginKeepsTokens(w: World, id: ClientId, name: Name, token: Token)
    requires TokenInv(w) && NeverQueued(w, id) && id < w.nextId && name != NO_NAME
    requires id in w.clients ==> w.clients[id].userName == name
    requires forall i | 0 <= i < |w.jobs| && w.jobs[i].LoginJob? :: w.jobs[i].id != id
    ensures TokenInv(QueueClientLogin(w, id, name, token))
  {
    var v := QueueClientLogin(w, id, name, token);
    assert forall e | e in v.log :: e in w.log || e == LoginQueued(id, name, token);
  }

  lemma JobKeepsTokens(w: World)
    requires TokenInv(w) && QueueInv(w)
    ensures TokenInv(SchedulerTick(w))
  {
    if w.jobs != [] {
      var v := w.(jobs := w.jobs[1..]);
      PopJobKeepsQueues(w);
      assert TokenInv(v) by {
        assert forall i | 0 <= i < |v.jobs| :: v.jobs[i] == w.jobs[i + 1];
      }
      match w.jobs[0]
      case LoginJob(id, name, token) =>
        assert w.jobs[0].LoginJob?;
        QueueLoginKeepsTokens(v, id, name, token);
      case _ => SameTokensKeep(v, SchedulerTick(w));
    }
  }

  lemma LoginKeepsTokens(w: World, id: ClientId, name: Name, token: Token)
    requires TokenInv(w) && Legal(w, LogIn(id, name, token))
    ensures TokenInv(HandleLogin(w, id, name, token))
  {
    if IsRefused(w, name, token) {
      SameTokensKeep(w, HandleLogin(w, id, name, token));
    }
  }

  lemma PerformRequestKeepsTokens(w: World, d: RequestDecision)
    requires w.requests != [] && w.requests[0] in w.logins
    ensures SameTokens(w, PerformRequest(w, d))
  {
  }

  lemma PerformResponseKeepsTokens(w: World, d: ResponseDecision, a: Answers)
    requires w.responses != [] && w.responses[0] in w.logins
    ensures SameTokens(w, PerformResponse(w, d, a))
  {
  }

  lemma RequestKeepsTokens(w: World, a: Answers)
    requires TokenInv(w) && QueueInv(w)
    ensures TokenInv(ProcessLoginRequest(w, a))
  {
    if w.requests != [] {
      var id := w.requests[0];
      var v := w.(log := w.log + RequestFindings(id, w.logins[id], a));
      RequestIs(w, a);
      SameTokensKeep(w, v);
      PerformRequestKeepsTokens(v, DecideRequest(w.logins[id], a));
      SameTokensKeep(v, ProcessLoginRequest(w, a));
    }
  }

  lemma ResponseKeepsTokens(w: World, a: Answers)
    requires TokenInv(w) && QueueInv(w)
    ensures TokenInv(ProcessLoginResponse(w, a))
  {
    if w.responses != [] {
      var id := w.responses[0];
      var v := w.(log := w.log + ResponseFindings(id, w.logins[id], a));
      ResponseIs(w, a);
      SameTokensKeep(w, v);
      PerformResponseKeepsTokens(v, DecideResponse(w.logins[id], a, w.logins[id].userName in w.users), a);
      SameTokensKeep(v, ProcessLoginResponse(w, a));
    }
  }

  lemma ConnectKeepsTokens(w: World)
    requires TokenInv(w)
    ensures TokenInv(ClientConnected(w))
  {
  }

  lemma DisconnectKeepsTokens(w: World, id: ClientId)
    requires TokenInv(w) && id in w.clients
    ensures TokenInv(ClientDisconnected(w, id))
  {
  }

  lemma NextKeepsTokens(w: World, s: Step)
    requires TokenInv(w) && QueueInv(w) && Legal(w, s)
    ensures TokenInv(Next(w, s))
  {
    match s
    case LogIn(id, name, token) => LoginKeepsTokens(w, id, name, token);
    case RunNextJob => JobKeepsTokens(w);
    case AskBackend(result) => SameTokensKeep(w, Authenticate(w, result));
    case Poll => SameTokensKeep(w, PollVerdicts(w));
    case Request(a) => RequestKeepsTokens(w, a);
    case Response(a) => ResponseKeepsTokens(w, a);
    case Connect => ConnectKeepsTokens(w);
    case Disconnect(id) => DisconnectKeepsTokens(w, id);
  }

  // ---------------------------------------------------------------------------------------------
  // Sessions.

  predicate LoggedInAs(w: World, id: ClientId, name: Name) {
    id in w.clients && w.clients[id] == Context(name, true)
  }

  /** A logout of the name is still a job. */
  predicate LogoutPending(w: World, i: int, name: Name) {
    0 <= i < |w.jobs| && w.jobs[i].DisconnectJob? && w.jobs[i].isAuthenticated && w.jobs[i].name == name
  }

  /** A user name has at most one authenticated client or pending logout, and if it has one it has its user
      instance. */
  ghost predicate SessionInv(w: World) {
    && (forall a, b, name | LoggedInAs(w, a, name) && LoggedInAs(w, b, name) :: a == b)
    && (forall i, j, name | LogoutPending(w, i, name) && LogoutPending(w, j, name) :: i == j)
    && (forall a, i, name | LoggedInAs(w, a, name) :: !LogoutPending(w, i, name))
    && (forall a, name | LoggedInAs(w, a, name) :: name in w.users && name != NO_NAME)
    && (forall i, name | LogoutPending(w, i, name) :: name in w.users)
  }

  /** Neither the authenticated clients nor the pending logouts nor the user instances change. */
  ghost predicate SameSessions(w: World, v: World) {
    && (forall a, name :: LoggedInAs(v, a, name) <==> LoggedInAs(w, a, name))
    && (forall i, name :: LogoutPending(v, i, name) <==> LogoutPending(w, i, name))
    && v.users == w.users
  }

  lemma LoginKeepsSessions(w: World, id: ClientId, name: Name, token: Token)
    requires SessionInv(w) && Legal(w, LogIn(id, name, token))
    ensures SameSessions(w, HandleLogin(w, id, name, token))
  {
    assert w.clients[id].userName == NO_NAME && w.clients[id].isAuthenticated ==> LoggedInAs(w, id, NO_NAME);
  }

  lemma DisconnectKeepsSessions(w: World, id: ClientId)
    requires SessionInv(w) && id in w.clients
    ensures SessionInv(ClientDisconnected(w, id))
  {
    var v, n := ClientDisconnected(w, id), |w.jobs|;
    assert forall a, name :: LoggedInAs(v, a, name) <==> LoggedInAs(w, a, name) && a != id;
    assert forall i, name ::
      LogoutPending(v, i, name) <==> LogoutPending(w, i, name) || (i == n && LoggedInAs(w, id, name));
  }

  lemma JobKeepsSessions(w: World)
    requires SessionInv(w)
    ensures SessionInv(SchedulerTick(w))
  {
    if w.jobs != [] {
      var v := SchedulerTick(w);
      assert forall a, name :: LoggedInAs(v, a, name) <==> LoggedInAs(w, a, name);
      assert forall i, name :: LogoutPending(v, i, name) <==> i >= 0 && LogoutPending(w, i + 1, name);
      assert forall name :: name in v.users <==> name in w.users && !LogoutPending(w, 0, name);
    }
  }

  lemma PerformRequestParts(w: World, d: RequestDecision)
    requires w.requests != [] && w.requests[0] in w.logins
    ensures
      var v := PerformRequest(w, d);
      v.clients == w.clients && v.jobs == w.jobs && v.users == w.users
  {
  }

  /** What a step of the request queue leaves alone. */
  lemma RequestParts(w: World, a: Answers)
    ensures
      var v := ProcessLoginRequest(w, a);
      v.clients == w.clients && v.jobs == w.jobs && v.users == w.users
  {
    if w.requests != [] {
      var id, login := w.requests[0], LoginOf(w, w.requests[0]);
      PerformRequestParts(
        w.(logins := w.logins[id := login], log := w.log + RequestFindings(id, login, a)), DecideRequest(login, a));
    }
  }

  lemma SamePartsSameSessions(w: World, v: World)
    requires v.clients == w.clients && v.jobs == w.jobs && v.users == w.users
    ensures SameSessions(w, v)
  {
  }

  /** The head of the response queue is admitted. */
  predicate Admits(w: World, a: Answers) {
    && w.responses != []
    && var login := LoginOf(w, w.responses[0]);
       DecideResponse(login, a, login.userName in w.users).Admit?
  }

  /** What an admission does to the clients, the jobs and the user instances. */
  ghost predicate Admission(w: World, v: World, id: ClientId, name: Name, uid: Uid) {
    && v.jobs == w.jobs && v.users == w.users[name := uid]
    && v.clients == if id in w.clients then w.clients[id := w.clients[id].(isAuthenticated := true)] else w.clients
  }

  lemma ResponseParts(w: World, a: Answers)
    ensures
      var v := ProcessLoginResponse(w, a);
      if Admits(w, a)
      then
        var login := LoginOf(w, w.responses[0]);
        Admission(
          w, v, w.responses[0], login.userName, DecideResponse(login, a, login.userName in w.users).uid)
      else v.clients == w.clients && v.jobs == w.jobs && v.users == w.users
  {
  }

  lemma AdmissionKeepsSessions(w: World, v: World, id: ClientId, name: Name, uid: Uid)
    requires SessionInv(w) && name !in w.users && name != NO_NAME && Admission(w, v, id, name, uid)
    requires id in w.clients ==> w.clients[id].userName == name
    ensures SessionInv(v)
  {
    assert forall b, n :: LoggedInAs(v, b, n) <==> LoggedInAs(w, b, n) || (b == id && n == name && id in w.clients);
    assert forall i, n :: LogoutPending(v, i, n) <==> LogoutPending(w, i, n);
  }

  /** Who is admitted is known by the name of its login, which has no instance yet. */
  lemma AdmittedName(w: World, a: Answers) returns (id: ClientId, name: Name, uid: Uid)
    requires QueueInv(w) && Admits(w, a)
    ensures id == w.responses[0] && name == LoginOf(w, id).userName && name !in w.users && name != NO_NAME
    ensures id in w.clients ==> w.clients[id].userName == name
    ensures Admission(w, ProcessLoginResponse(w, a), id, name, uid)
  {
    id := w.responses[0];
    name := LoginOf(w, id).userName;
    uid := DecideResponse(LoginOf(w, id), a, name in w.users).uid;
    assert InQueue(w, id);
    ResponseParts(w, a);
  }

  lemma ResponseKeepsSessions(w: World, a: Answers)
    requires SessionInv(w) && QueueInv(w)
    ensures SessionInv(ProcessLoginResponse(w, a))
  {
    if Admits(w, a) {
      var id, name, uid := AdmittedName(w, a);
      AdmissionKeepsSessions(w, ProcessLoginResponse(w, a), id, name, uid);
    } else {
      ResponseParts(w, a);
      SamePartsSameSessions(w, ProcessLoginResponse(w, a));
    }
  }

  /** The steps that change no session. */
  lemma QuietStepsKeepSessions(w: World, s: Step)
    requires SessionInv(w) && QueueInv(w) && Legal(w, s) && !s.Disconnect? && !s.RunNextJob? && !s.Response?
    ensures SameSessions(w, Next(w, s))
  {
    if s.LogIn? {
      LoginKeepsSessions(w, s.id, s.name, s.token);
    } else if s.Connect? {
      assert forall b, n :: LoggedInAs(Next(w, s), b, n) <==> LoggedInAs(w, b, n);
    } else {
      if s.Request? {
        RequestParts(w, s.a);
      }
      SamePartsSameSessions(w, Next(w, s));
    }
  }

  lemma NextKeepsSessions(w: World, s: Step)
    requires SessionInv(w) && QueueInv(w) && Legal(w, s)
    ensures SessionInv(Next(w, s))
  {
    match s
    case Disconnect(id) => DisconnectKeepsSessions(w, id);
    case RunNextJob => JobKeepsSessions(w);
    case Response(a) => ResponseKeepsSessions(w, a);
    case _ => QuietStepsKeepSessions(w, s);
  }

  // ---------------------------------------------------------------------------------------------
  // Runs.

  ghost predicate Inv(w: World) {
    QueueInv(w) && AuthInv(w) && AdmissionInv(w) && TokenInv(w) && SessionInv(w)
  }

  function Init(): World {
    World(map[], 0, [], map[], [], [], map[], [], [], [])
  }

  predicate LegalRun(w: World, steps: seq<Step>)
    decreases |steps|
  {
    steps != [] ==> Legal(w, steps[0]) && LegalRun(Next(w, steps[0]), steps[1..])
  }

  function Run(w: World, steps: seq<Step>): World
    requires LegalRun(w, steps)
    decreases |steps|
  {
    if steps == [] then w else Run(Next(w, steps[0]), steps[1..])
  }

  lemma {:induction false} RunKeepsInv(w: World, steps: seq<Step>)
    requires Inv(w) && LegalRun(w, steps)
    ensures Inv(Run(w, steps))
    decreases |steps|
  {
    if steps != [] {
      NextKeepsQueues(w, steps[0]);
      NextKeepsAuth(w, steps[0]);
      NextKeepsAdmission(w, steps[0]);
      NextKeepsTokens(w, steps[0]);
      NextKeepsSessions(w, steps[0]);
      RunKeepsInv(Next(w, steps[0]), steps[1..]);
    }
  }

  /** In every run no two connected authenticated clients share a user name, and each of them has its user
      instance. */
  lemma OneSessionPerName(steps: seq<Step>, a: ClientId, b: ClientId)
    requires LegalRun(Init(), steps)
    ensures
      var w := Run(Init(), steps);
      a in w.clients && b in w.clients && w.clients[a].isAuthenticated && w.clients[b].isAuthenticated ==>
        && w.clients[a].userName in w.users
        && (w.clients[a].userName == w.clients[b].userName ==> a == b)
  {
    RunKeepsInv(Init(), steps);
    var w := Run(Init(), steps);
    if a in w.clients && b in w.clients && w.clients[a].isAuthenticated && w.clients[b].isAuthenticated {
      assert LoggedInAs(w, a, w.clients[a].userName) && LoggedInAs(w, b, w.clients[b].userName);
    }
  }

  /** In every run no client is in both queues or twice in one. */
  lemma QueuedOnce(steps: seq<Step>)
    requires LegalRun(Init(), steps)
    ensures Exclusive(Run(Init(), steps))
  {
    RunKeepsInv(Init(), steps);
  }

  /** In every run a user instance is created only for a client that logged in under the name, after a
      positive verdict on the name, the finding that the user data are loaded, the finding that there is no
      ban and, for a user with a character, the finding that the character data are loaded. */
  lemma AdmissionIsEarned(steps: seq<Step>, k: nat, id: ClientId, name: Name, uid: Uid)
    requires LegalRun(Init(), steps)
    requires k < |Run(Init(), steps).log| && Run(Init(), steps).log[k] == Created(id, name, uid)
    ensures
      var before := Run(Init(), steps).log[..k];
      && (exists token :: LoginQueued(id, name, token) in before) && Positive(before, name)
      && UserDataChecked(id, name, true) in before && PunishmentsChecked(id, name, false) in before
      && (uid != INVALID_UID ==> CharacterDataChecked(id, name, uid, true) in before)
  {
    RunKeepsInv(Init(), steps);
    assert Earned(Run(Init(), steps).log[..k], Run(Init(), steps).log[k]);
  }

  lemma OwnOrAnother(w: World, before: seq<Entry>, id: ClientId, name: Name, token: Token)
    requires TokenInv(w) && before <= w.log && Positive(before, name) && LoginQueued(id, name, token) in before
    ensures
      || VerdictGiven(Verdict(name, true), token) in before
      || exists other, t | other != id ::
           LoginQueued(other, name, t) in before && VerdictGiven(Verdict(name, true), t) in before
  {
    var t :| VerdictGiven(Verdict(name, true), t) in before && Asked(before, name, t);
    var other :| LoginQueued(other, name, t) in before;
    assert LoginQueued(other, name, t) in w.log && LoginQueued(id, name, token) in w.log;
  }

  lemma TokensOfRun(steps: seq<Step>)
    requires LegalRun(Init(), steps)
    ensures TokenInv(Run(Init(), steps))
  {
    RunKeepsInv(Init(), steps);
  }

  /** Verdicts name no tokens. A client whose own token had no positive verdict is admitted only if another
      client logged in under the same name with a token that had one. */
  lemma OwnTokenOrAnother(steps: seq<Step>, k: nat, id: ClientId, name: Name, uid: Uid, token: Token)
    requires LegalRun(Init(), steps)
    requires k < |Run(Init(), steps).log| && Run(Init(), steps).log[k] == Created(id, name, uid)
    requires LoginQueued(id, name, token) in Run(Init(), steps).log[..k]
    ensures
      var before := Run(Init(), steps).log[..k];
      || VerdictGiven(Verdict(name, true), token) in before
      || exists other, t | other != id ::
           LoginQueued(other, name, t) in before && VerdictGiven(Verdict(name, true), t) in before
  {
    AdmissionIsEarned(steps, k, id, name, uid);
    TokensOfRun(steps);
    OwnOrAnother(Run(Init(), steps), Run(Init(), steps).log[..k], id, name, token);
  }

  /** So as long as nobody else logs in under the name, the own token decides. */
  lemma OwnTokenDecides(steps: seq<Step>, k: nat, id: ClientId, name: Name, uid: Uid)
    requires LegalRun(Init(), steps)
    requires k < |Run(Init(), steps).log| && Run(Init(), steps).log[k] == Created(id, name, uid)
    requires forall e | e in Run(Init(), steps).log[..k] && e.LoginQueued? && e.name == name :: e.id == id
    ensures
      var before := Run(Init(), steps).log[..k];
      exists token :: LoginQueued(id, name, token) in before && VerdictGiven(Verdict(name, true), token) in before
  {
    AdmissionIsEarned(steps, k, id, name, uid);
    var before := Run(Init(), steps).log[..k];
    var token :| LoginQueued(id, name, token) in before;
    OwnTokenOrAnother(steps, k, id, name, uid, token);
    assert forall other, t | LoginQueued(other, name, t) in before ::
      LoginQueued(other, name, t).LoginQueued? && other == id;
  }

  /** Whatever their tokens, all logins under a name that a poll decides are decided alike. */
  lemma {:induction false} VerdictsAreShared(a: Login, b: Login, verdicts: seq<Verdict>)
    requires a.userName == b.userName && exists v :: v in verdicts && v.userName == a.userName
    ensures Judge(a, verdicts).isAuthenticated == Judge(b, verdicts).isAuthenticated
  {
    var n := |verdicts| - 1;
    if verdicts[n].userName != a.userName {
      assert forall v :: v in verdicts <==> v in verdicts[..n] || v == verdicts[n];
      VerdictsAreShared(a, b, verdicts[..n]);
    }
  }

  // ---------------------------------------------------------------------------------------------
  // Instances without a client.

  /** A user instance that nobody is logged in under and nobody is about to log out of. */
  ghost predicate Orphan(w: World, name: Name) {
    && name in w.users
    && (forall a :: !LoggedInAs(w, a, name))
    && (forall i :: !LogoutPending(w, i, name))
  }

  /** A response leaves an instance without a client exactly if the client is gone when it is admitted. */
  lemma AdmissionOrphansIff(w: World, a: Answers)
    requires Inv(w) && w.responses != []
    requires
      var login := LoginOf(w, w.responses[0]);
      DecideResponse(login, a, login.userName in w.users).Admit?
    ensures
      Orphan(ProcessLoginResponse(w, a), LoginOf(w, w.responses[0]).userName) <==> w.responses[0] !in w.clients
  {
    var id, name, uid := AdmittedName(w, a);
    AdmissionLeavesOrphanIff(w, ProcessLoginResponse(w, a), id, name, uid);
  }

  lemma AdmissionLeavesOrphanIff(w: World, v: World, id: ClientId, name: Name, uid: Uid)
    requires SessionInv(w) && name !in w.users && Admission(w, v, id, name, uid)
    requires id in w.clients ==> w.clients[id].userName == name
    ensures Orphan(v, name) <==> id !in w.clients
  {
    if id in w.clients {
      assert LoggedInAs(v, id, name);
    } else {
      assert forall b :: LoggedInAs(v, b, name) <==> LoggedInAs(w, b, name);
      assert forall i :: LogoutPending(v, i, name) <==> LogoutPending(w, i, name);
    }
  }

  lemma JobKeepsOrphan(w: World, name: Name)
    requires Orphan(w, name)
    ensures Orphan(SchedulerTick(w), name)
  {
    if w.jobs != [] {
      var v := SchedulerTick(w);
      assert !LogoutPending(w, 0, name);
      assert forall a :: LoggedInAs(v, a, name) <==> LoggedInAs(w, a, name);
      assert forall i :: LogoutPending(v, i, name) ==> LogoutPending(w, i + 1, name);
    }
  }

  lemma AdmissionKeepsOrphan(w: World, v: World, id: ClientId, n: Name, uid: Uid, name: Name)
    requires Orphan(w, name) && n != name && Admission(w, v, id, n, uid)
    requires id in w.clients ==> w.clients[id].userName == n
    ensures Orphan(v, name)
  {
    assert forall b :: LoggedInAs(v, b, name) ==> LoggedInAs(w, b, name);
    assert forall i :: LogoutPending(v, i, name) ==> LogoutPending(w, i, name);
  }

  lemma ResponseKeepsOrphan(w: World, a: Answers, name: Name)
    requires Orphan(w, name) && Inv(w)
    ensures Orphan(ProcessLoginResponse(w, a), name)
  {
    if Admits(w, a) {
      var id, n, uid := AdmittedName(w, a);
      AdmissionKeepsOrphan(w, ProcessLoginResponse(w, a), id, n, uid, name);
    } else {
      ResponseParts(w, a);
      SamePartsSameSessions(w, ProcessLoginResponse(w, a));
      SameSessionsKeepOrphan(w, ProcessLoginResponse(w, a), name);
    }
  }

  lemma SameSessionsKeepOrphan(w: World, v: World, name: Name)
    requires Orphan(w, name) && SameSessions(w, v)
    ensures Orphan(v, name)
  {
  }

  lemma DisconnectKeepsOrphan(w: World, id: ClientId, name: Name)
    requires Orphan(w, name) && id in w.clients
    ensures Orphan(ClientDisconnected(w, id), name)
  {
    var v := ClientDisconnected(w, id);
    assert !LoggedInAs(w, id, name);
    assert forall i :: LogoutPending(v, i, name) ==> LogoutPending(w, i, name);
    assert forall a :: LoggedInAs(v, a, name) ==> LoggedInAs(w, a, name);
  }

  lemma NextKeepsOrphan(w: World, s: Step, name: Name)
    requires Orphan(w, name) && Inv(w) && Legal(w, s)
    ensures Orphan(Next(w, s), name)
  {
    match s
    case Disconnect(id) => DisconnectKeepsOrphan(w, id, name);
    case RunNextJob => JobKeepsOrphan(w, name);
    case Response(a) => ResponseKeepsOrphan(w, a, name);
    case _ =>
      QuietStepsKeepSessions(w, s);
      SameSessionsKeepOrphan(w, Next(w, s), name);
  }

  lemma JobLeavesNoOrphan(w: World, name: Name)
    requires SessionInv(w) && !Orphan(w, name)
    ensures !Orphan(SchedulerTick(w), name)
  {
    if w.jobs != [] && name in w.users {
      var v := SchedulerTick(w);
      if a :| LoggedInAs(w, a, name) {
        assert LoggedInAs(v, a, name);
      } else {
        var i :| LogoutPending(w, i, name);
        if i == 0 {
          assert name !in v.users;
        } else {
          assert LogoutPending(v, i - 1, name);
        }
      }
    }
  }

  lemma DisconnectLeavesNoOrphan(w: World, id: ClientId, name: Name)
    requires id in w.clients && !Orphan(w, name)
    ensures !Orphan(ClientDisconnected(w, id), name)
  {
    var v := ClientDisconnected(w, id);
    if name in w.users {
      if a :| LoggedInAs(w, a, name) {
        assert if a == id then LogoutPending(v, |w.jobs|, name) else LoggedInAs(v, a, name);
      } else {
        var i :| LogoutPending(w, i, name);
        assert LogoutPending(v, i, name);
      }
    }
  }

  lemma AdmissionOfAnother(w: World, v: World, id: ClientId, n: Name, uid: Uid, name: Name)
    requires Admission(w, v, id, n, uid) && n != name && !Orphan(w, name)
    requires id in w.clients ==> w.clients[id].userName == n
    ensures !Orphan(v, name)
  {
    if name in w.users {
      if a :| LoggedInAs(w, a, name) {
        assert LoggedInAs(v, a, name);
      } else {
        var i :| LogoutPending(w, i, name);
        assert LogoutPending(v, i, name);
      }
    }
  }

  lemma SameSessionsSameOrphans(w: World, v: World, name: Name)
    requires SameSessions(w, v)
    ensures Orphan(v, name) <==> Orphan(w, name)
  {
    assert forall a :: LoggedInAs(v, a, name) <==> LoggedInAs(w, a, name);
    assert forall i :: LogoutPending(v, i, name) <==> LogoutPending(w, i, name);
  }

  lemma ResponseLeavesOrphanIff(w: World, a: Answers, name: Name)
    requires Inv(w) && !Orphan(w, name)
    ensures
      Orphan(ProcessLoginResponse(w, a), name)
      <==> Admits(w, a) && w.responses[0] !in w.clients && LoginOf(w, w.responses[0]).userName == name
  {
    var v := ProcessLoginResponse(w, a);
    if Admits(w, a) {
      var id, n, uid := AdmittedName(w, a);
      if n == name {
        AdmissionLeavesOrphanIff(w, v, id, n, uid);
      } else {
        AdmissionOfAnother(w, v, id, n, uid, name);
      }
    } else {
      ResponseParts(w, a);
      SamePartsSameSessions(w, v);
      SameSessionsSameOrphans(w, v, name);
    }
  }

  /** An instance loses its client for good in no other way: a user who was admitted while connected and disconnects is
      logged out by the disconnect job. */
  lemma NextLeavesOrphanIff(w: World, s: Step, name: Name)
    requires Inv(w) && Legal(w, s) && !Orphan(w, name)
    ensures
      Orphan(Next(w, s), name)
      <==>
        && s.Response? && Admits(w, s.a)
        && w.responses[0] !in w.clients && LoginOf(w, w.responses[0]).userName == name
  {
    match s
    case Disconnect(id) => DisconnectLeavesNoOrphan(w, id, name);
    case RunNextJob => JobLeavesNoOrphan(w, name);
    case Response(a) => ResponseLeavesOrphanIff(w, a, name);
    case _ =>
      QuietStepsKeepSessions(w, s);
      SameSessionsSameOrphans(w, Next(w, s), name);
  }

  /** An instance without a client stays one in every run: nobody logs in under the name again. */
  lemma {:induction false} OrphanStays(w: World, steps: seq<Step>, name: Name)
    requires Orphan(w, name) && Inv(w) && LegalRun(w, steps)
    ensures Orphan(Run(w, steps), name)
    decreases |steps|
  {
    if steps != [] {
      NextKeepsOrphan(w, steps[0], name);
      RunKeepsInv(w, [steps[0]]);
      assert Run(w, [steps[0]]) == Next(w, steps[0]);
      OrphanStays(Next(w, steps[0]), steps[1..], name);
    }
  }

  // ---------------------------------------------------------------------------------------------
  // A second login on one connection.

  /** A login keeps the sessions unique exactly if it is refused, or its client is not authenticated yet, or
      the name has an instance without a client, which the client then takes over. */
  lemma LoginKeepsSessionsIff(w: World, id: ClientId, name: Name, token: Token)
    requires SessionInv(w) && id in w.clients
    ensures
      SessionInv(HandleLogin(w, id, name, token))
      <==> IsRefused(w, name, token) || !w.clients[id].isAuthenticated || Orphan(w, name)
  {
    var v := HandleLogin(w, id, name, token);
    if IsRefused(w, name, token) {
      assert SameSessions(w, v);
    } else {
      assert forall b, n :: LoggedInAs(v, b, n) <==>
        if b == id then n == name && w.clients[id].isAuthenticated else LoggedInAs(w, b, n);
      assert forall i, n :: LogoutPending(v, i, n) <==> LogoutPending(w, i, n);
      assert forall b :: !LoggedInAs(w, b, name);
      if w.clients[id].isAuthenticated {
        assert LoggedInAs(v, id, name);
      }
    }
  }

  /** No login of the client is queued, decided or still a job. */
  predicate HasNoLogin(w: World, id: ClientId) {
    && !InQueue(w, id) && (id in w.logins ==> w.logins[id].userName == NO_NAME)
    && forall i | 0 <= i < |w.jobs| && w.jobs[i].LoginJob? :: w.jobs[i].id != id
  }

  /** A login keeps the order of the queues exactly if it is refused or its client has no login yet. */
  lemma LoginKeepsQueuesIff(w: World, id: ClientId, name: Name, token: Token)
    requires QueueInv(w) && id in w.clients
    ensures QueueInv(HandleLogin(w, id, name, token)) <==> IsRefused(w, name, token) || HasNoLogin(w, id)
  {
    var v, n := HandleLogin(w, id, name, token), |w.jobs|;
    if !IsRefused(w, name, token) {
      assert v.jobs[n] == LoginJob(id, name, token);
      assert forall i | 0 <= i < n :: v.jobs[i] == w.jobs[i];
      if QueueInv(v) {
        assert v.jobs[n].LoginJob?;
      }
    }
  }

  /** A queued login keeps that who counts as authenticated has had a positive verdict on the name exactly if its
      client does not count as authenticated yet, or has had one on the new name too. */
  lemma QueueLoginKeepsAuthIff(w: World, id: ClientId, name: Name, token: Token)
    requires AuthInv(w) && name != NO_NAME
    ensures
      var v := QueueClientLogin(w, id, name, token);
      AuthInv(v) <==>
        id !in w.logins || w.logins[id].isAuthenticated != Some(true) || Positive(v.log, name)
  {
    var v := QueueClientLogin(w, id, name, token);
    LogKeepsVerdicts(w.log, v.log);
    if id in w.logins {
      assert v.log[|w.log|] == LoginQueued(id, name, token);
      assert v.logins[id].userName == name;
    }
  }

  /** It keeps that who waits to be admitted has passed all checks exactly if its client does not wait, or has
      passed them under the new name too. */
  lemma QueueLoginKeepsAdmissionIff(w: World, id: ClientId, name: Name, token: Token)
    requires AdmissionInv(w)
    ensures
      var v := QueueClientLogin(w, id, name, token);
      AdmissionInv(v) <==> id !in w.logins || id !in w.responses || Cleared(v.log, id, name)
  {
    var v := QueueClientLogin(w, id, name, token);
    MoreEntries(w.log, v.log);
    LogKeepsCleared(w.log, v.log);
    if id in w.logins {
      assert v.logins[id].userName == name;
    }
  }

  /** A login keeps that every client has one token exactly if it is refused or its client was never queued. */
  lemma LoginKeepsTokensIff(w: World, id: ClientId, name: Name, token: Token)
    requires TokenInv(w) && id in w.clients
    ensures TokenInv(HandleLogin(w, id, name, token)) <==> IsRefused(w, name, token) || NeverQueued(w, id)
  {
    var v, n := HandleLogin(w, id, name, token), |w.jobs|;
    if IsRefused(w, name, token) {
      SameTokensKeep(w, v);
    } else {
      assert v.jobs[n] == LoginJob(id, name, token) && v.log == w.log;
      assert forall i | 0 <= i < n :: v.jobs[i] == w.jobs[i];
      assert forall other :: NeverQueued(v, other) <==> NeverQueued(w, other);
    }
  }

  /** A queued login is queued once exactly if its client is not queued already. */
  lemma QueueLoginStaysExclusiveIff(w: World, id: ClientId, name: Name, token: Token)
    requires Exclusive(w)
    ensures Exclusive(QueueClientLogin(w, id, name, token)) <==> id !in w.logins || !InQueue(w, id)
  {
    var v := QueueClientLogin(w, id, name, token);
    if id in w.logins {
      assert v.requests[|w.requests|] == id && id in v.requests;
      if id in w.requests {
        var i :| 0 <= i < |w.requests| && w.requests[i] == id;
        assert v.requests[i] == v.requests[|w.requests|];
      }
    }
  }

  /** An instance without a client gets one in a login step exactly if an authenticated client logs in again,
      under its name: the only way to be rid of it. */
  lemma LoginAdoptsOrphanIff(w: World, id: ClientId, name: Name, token: Token, orphan: Name)
    requires Orphan(w, orphan) && id in w.clients
    ensures
      !Orphan(HandleLogin(w, id, name, token), orphan)
      <==> !IsRefused(w, name, token) && w.clients[id].isAuthenticated && name == orphan
  {
    var v := HandleLogin(w, id, name, token);
    if IsRefused(w, name, token) {
      assert SameSessions(w, v);
    } else {
      forall b
        ensures LoggedInAs(v, b, orphan) <==> b == id && name == orphan && w.clients[id].isAuthenticated
      {
        assert !LoggedInAs(w, b, orphan);
      }
      if w.clients[id].isAuthenticated && name == orphan {
        assert LoggedInAs(v, id, orphan);
      }
      assert forall i :: LogoutPending(v, i, orphan) <==> LogoutPending(w, i, orphan);
    }
  }

  ghost predicate UniqueNames(w: World) {
    forall a, b, name | LoggedInAs(w, a, name) && LoggedInAs(w, b, name) :: a == b
  }

  /** The client that is admitted is connected, and somebody else is logged in under the name of the client. */
  ghost predicate Collides(w: World, s: Step) {
    && s.Response? && Admits(w, s.a) && w.responses[0] in w.clients
    && exists b :: b != w.responses[0] && LoggedInAs(w, b, w.clients[w.responses[0]].userName)
  }

  lemma SameClientsSameNames(w: World, v: World)
    requires v.clients == w.clients
    ensures UniqueNames(v) <==> UniqueNames(w)
  {
    assert forall b, n :: LoggedInAs(v, b, n) <==> LoggedInAs(w, b, n);
  }

  lemma LoginKeepsNames(w: World, id: ClientId, name: Name, token: Token)
    requires UniqueNames(w) && id in w.clients
    ensures UniqueNames(HandleLogin(w, id, name, token))
  {
    var v := HandleLogin(w, id, name, token);
    if IsRefused(w, name, token) {
      SameClientsSameNames(w, v);
    } else {
      assert forall b :: !LoggedInAs(w, b, name);
      assert forall b, n :: LoggedInAs(v, b, n) ==> if b == id then n == name else LoggedInAs(w, b, n);
    }
  }

  lemma AdmissionKeepsNamesIff(w: World, a: Answers)
    requires UniqueNames(w) && Admits(w, a)
    ensures UniqueNames(ProcessLoginResponse(w, a)) <==> !Collides(w, Response(a))
  {
    var id, v := w.responses[0], ProcessLoginResponse(w, a);
    ResponseParts(w, a);
    if id in w.clients {
      OneMoreLoggedIn(w, v, id, w.clients[id].userName);
    } else {
      SameClientsSameNames(w, v);
    }
  }

  lemma OneMoreLoggedIn(w: World, v: World, id: ClientId, name: Name)
    requires UniqueNames(w) && v.clients == w.clients[id := Context(name, true)]
    ensures UniqueNames(v) <==> !exists b :: b != id && LoggedInAs(w, b, name)
  {
    assert forall b, n :: LoggedInAs(v, b, n) <==> if b == id then n == name else LoggedInAs(w, b, n);
    assert LoggedInAs(v, id, name);
  }

  lemma FewerClientsKeepNames(w: World, v: World)
    requires UniqueNames(w) && forall b, n | LoggedInAs(v, b, n) :: LoggedInAs(w, b, n)
    ensures UniqueNames(v)
  {
  }

  /** Whatever the world, no step lets a second client in under a name but the admission of a client while somebody
      else is logged in under its name. */
  lemma NextKeepsNamesIff(w: World, s: Step)
    requires UniqueNames(w) && Possible(w, s)
    ensures UniqueNames(Next(w, s)) <==> !Collides(w, s)
  {
    match s
    case LogIn(id, name, token) => LoginKeepsNames(w, id, name, token);
    case Response(a) =>
      if Admits(w, a) {
        AdmissionKeepsNamesIff(w, a);
      } else {
        ResponseParts(w, a);
        SameClientsSameNames(w, Next(w, s));
      }
    case Connect => FewerClientsKeepNames(w, Next(w, s));
    case Disconnect(id) => FewerClientsKeepNames(w, Next(w, s));
    case Request(a) =>
      RequestParts(w, a);
      SameClientsSameNames(w, Next(w, s));
    case _ => SameClientsSameNames(w, Next(w, s));
  }
}
