/**
 Login admission (src/server/lobby/LobbyDirector.cpp, src/server/lobby/LobbyNetworkHandler.cpp and
 src/server/authentication/AuthenticationService.cpp) as functions on values. What the data director, the
 punishments and the authentication backend answer is an input of each step.
 */
module LoginModel {
  import opened Wrappers

  type ClientId = nat
  type Name = string
  type Token = string
  type Uid = nat

  const INVALID_UID: Uid := 0
  const NO_NAME: Name := ""

  /** What the network handler keeps of a connected client. The name is set by its login. */
  datatype Context = Context(userName: Name, isAuthenticated: bool)

  datatype Login = Login(
    userName: Name, userToken: Token, authenticationRequested: bool, isAuthenticated: Option<bool>,
    userLoadRequested: bool, characterLoadRequested: bool)

  const FRESH: Login := Login(NO_NAME, "", false, None, false, false)

  /** A disconnect job captures the context at the time of the disconnect. */
  datatype Job =
    | ConnectJob(id: ClientId)
    | LoginJob(id: ClientId, name: Name, token: Token)
    | DisconnectJob(id: ClientId, isAuthenticated: bool, name: Name)

  datatype Authentication = Authentication(userName: Name, userToken: Token)

  /** A verdict names the user, not the token it was asked for. */
  datatype Verdict = Verdict(userName: Name, isAuthenticated: bool)

  datatype Reason = InvalidUser | InvalidLoginId | Duplicated | Generic | DisconnectYourself

  /** What has been observed and sent, in order. */
  datatype Entry =
    | LoginQueued(id: ClientId, name: Name, token: Token)
    | VerdictGiven(verdict: Verdict, token: Token)
    | UserLoadRequested(name: Name)
    | UserDataChecked(id: ClientId, name: Name, loaded: bool)
    | PunishmentsChecked(id: ClientId, name: Name, banned: bool)
    | CharacterLoadRequested(name: Name, uid: Uid)
    | CharacterDataChecked(id: ClientId, name: Name, uid: Uid, loaded: bool)
    | Created(id: ClientId, name: Name, uid: Uid)
    | Accepted(id: ClientId, toCharacterCreator: bool)
    | Rejected(id: ClientId, reason: Reason)

  datatype World = World(
    clients: map<ClientId, Context>, nextId: ClientId, jobs: seq<Job>,
    logins: map<ClientId, Login>, requests: seq<ClientId>, responses: seq<ClientId>, users: map<Name, Uid>,
    authentications: seq<Authentication>, verdicts: seq<Verdict>, log: seq<Entry>)

  /** What the data director and the punishments say when asked. `record` is the character of the user, if
      the record of the user is available. `addressKnown` says that a connected client is still connected
      when its address is looked up. */
  datatype Answers = Answers(
    beingLoaded: bool, userLoaded: bool, characterLoaded: bool, record: Option<Uid>, banned: bool,
    forcedIntoCreator: bool, addressKnown: bool)

  // ---------------------------------------------------------------------------------------------
  // The network handler.

  function ClientConnected(w: World): World {
    w.(clients := w.clients[w.nextId := Context(NO_NAME, false)],
       nextId := w.nextId + 1,
       jobs := w.jobs + [ConnectJob(w.nextId)])
  }

  /** Whether a connected client is authenticated under the name. */
  predicate IsLoggedIn(w: World, name: Name) {
    exists id :: id in w.clients && w.clients[id] == Context(name, true)
  }

  function Reject(w: World, id: ClientId, reason: Reason): World {
    if id in w.clients then w.(log := w.log + [Rejected(id, reason)]) else w
  }

  function HandleLogin(w: World, id: ClientId, name: Name, token: Token): World
    requires id in w.clients
  {
    if name == "" || token == "" then Reject(w, id, InvalidLoginId)
    else if IsLoggedIn(w, name) then Reject(w, id, Duplicated)
    else
      w.(clients := w.clients[id := w.clients[id].(userName := name)],
         jobs := w.jobs + [LoginJob(id, name, token)])
  }

  function ClientDisconnected(w: World, id: ClientId): World
    requires id in w.clients
  {
    w.(clients := w.clients - {id},
       jobs := w.jobs + [DisconnectJob(id, w.clients[id].isAuthenticated, w.clients[id].userName)])
  }

  // ---------------------------------------------------------------------------------------------
  // The jobs.

  function Remove(s: seq<ClientId>, id: ClientId): seq<ClientId> {
    if s == [] then []
    else
      var before := Remove(s[..|s| - 1], id);
      if s[|s| - 1] == id then before else before + [s[|s| - 1]]
  }

  function QueueClientConnect(w: World, id: ClientId): World {
    if id in w.logins then w else w.(logins := w.logins[id := FRESH])
  }

  function QueueClientLogin(w: World, id: ClientId, name: Name, token: Token): World {
    if id !in w.logins then w
    else
      w.(logins := w.logins[id := w.logins[id].(userName := name, userToken := token)],
         requests := w.requests + [id],
         log := w.log + [LoginQueued(id, name, token)])
  }

  function QueueClientDisconnect(w: World, id: ClientId): World {
    w.(requests := Remove(w.requests, id), responses := Remove(w.responses, id), logins := w.logins - {id})
  }

  function RunJob(w: World, job: Job): World {
    match job
    case ConnectJob(id) => QueueClientConnect(w, id)
    case LoginJob(id, name, token) => QueueClientLogin(w, id, name, token)
    case DisconnectJob(id, isAuthenticated, name) =>
      QueueClientDisconnect(if isAuthenticated then w.(users := w.users - {name}) else w, id)
  }

  /** The jobs are due at once, so they run in the order they were queued, one a tick. */
  function SchedulerTick(w: World): World {
    if w.jobs == [] then w else RunJob(w.(jobs := w.jobs[1..]), w.jobs[0])
  }

  // ---------------------------------------------------------------------------------------------
  // Authentication.

  /** The backend answers the oldest request, or has no answer yet. */
  function Authenticate(w: World, result: Option<bool>): World {
    if w.authentications == [] || result.None? then w
    else
      var verdict := Verdict(w.authentications[0].userName, result.value);
      w.(authentications := w.authentications[1..],
         verdicts := w.verdicts + [verdict],
         log := w.log + [VerdictGiven(verdict, w.authentications[0].userToken)])
  }

  /** The last of the verdicts on the name of the login counts. */
  function Judge(login: Login, verdicts: seq<Verdict>): Login {
    if verdicts == [] then login
    else
      var last := verdicts[|verdicts| - 1];
      if last.userName == login.userName then login.(isAuthenticated := Some(last.isAuthenticated))
      else Judge(login, verdicts[..|verdicts| - 1])
  }

  function PollVerdicts(w: World): World {
    w.(logins := map id | id in w.logins :: Judge(w.logins[id], w.verdicts), verdicts := [])
  }

  // ---------------------------------------------------------------------------------------------
  // The two queues.

  function LoginOf(w: World, id: ClientId): Login {
    if id in w.logins then w.logins[id] else FRESH
  }

  datatype RequestDecision =
    | WaitForAnswer | AskAuthentication | LoadUser | RefuseRequest(reason: Reason) | DropRequest | PassOn

  function DecideRequest(login: Login, a: Answers): RequestDecision {
    if !login.authenticationRequested then AskAuthentication
    else if login.isAuthenticated.None? then WaitForAnswer
    else if !login.isAuthenticated.value then RefuseRequest(InvalidUser)
    else if !login.userLoadRequested then LoadUser
    else if a.beingLoaded then WaitForAnswer
    else if !a.userLoaded then RefuseRequest(Generic)
    else if a.record.None? then DropRequest
    else if a.banned then RefuseRequest(DisconnectYourself)
    else PassOn
  }

  /** What is found out about the user on the way to the decision. */
  function RequestFindings(id: ClientId, login: Login, a: Answers): seq<Entry> {
    if login.isAuthenticated != Some(true) || !login.authenticationRequested then []
    else if !login.userLoadRequested || a.beingLoaded then []
    else
      [UserDataChecked(id, login.userName, a.userLoaded)]
      + if a.userLoaded && a.record.Some? then [PunishmentsChecked(id, login.userName, a.banned)] else []
  }

  /** The effect of a decision on the head of the request queue. */
  function PerformRequest(w: World, d: RequestDecision): World
    requires w.requests != [] && w.requests[0] in w.logins
  {
    var id := w.requests[0];
    var login := w.logins[id];
    match d
    case WaitForAnswer => w
    case AskAuthentication =>
      w.(logins := w.logins[id := login.(authenticationRequested := true)],
         authentications := w.authentications + [Authentication(login.userName, login.userToken)])
    case LoadUser =>
      w.(logins := w.logins[id := login.(userLoadRequested := true)],
         log := w.log + [UserLoadRequested(login.userName)])
    case RefuseRequest(reason) => Reject(w.(requests := w.requests[1..]), id, reason)
    case DropRequest => w.(requests := w.requests[1..])
    case PassOn => w.(requests := w.requests[1..], responses := w.responses + [id])
  }

  /** The context of the head is created if it is missing. */
  function ProcessLoginRequest(w: World, a: Answers): World {
    if w.requests == [] then w
    else
      var id, login := w.requests[0], LoginOf(w, w.requests[0]);
      PerformRequest(
        w.(logins := w.logins[id := login], log := w.log + RequestFindings(id, login, a)),
        DecideRequest(login, a))
  }

  datatype ResponseDecision = WaitForData | LoadCharacter(uid: Uid) | RefuseResponse(reason: Reason) | Admit(uid: Uid)

  function DecideResponse(login: Login, a: Answers, online: bool): ResponseDecision {
    if login.characterLoadRequested && a.beingLoaded then WaitForData
    else if a.record.None? then WaitForData
    else if a.record.value != INVALID_UID && !login.characterLoadRequested then LoadCharacter(a.record.value)
    else if a.record.value != INVALID_UID && !a.characterLoaded then RefuseResponse(Generic)
    else if online then RefuseResponse(Duplicated)
    else Admit(a.record.value)
  }

  function ResponseFindings(id: ClientId, login: Login, a: Answers): seq<Entry> {
    if (login.characterLoadRequested && a.beingLoaded) || a.record.None? || a.record.value == INVALID_UID
       || !login.characterLoadRequested then []
    else [CharacterDataChecked(id, login.userName, a.record.value, a.characterLoaded)]
  }

  function Accept(w: World, id: ClientId, toCharacterCreator: bool): World {
    if id !in w.clients then w
    else
      w.(clients := w.clients[id := w.clients[id].(isAuthenticated := true)],
         log := w.log + [Accepted(id, toCharacterCreator)])
  }

  /** The instance is created before the client is told; a client that is gone is not told, and then its
      address is not found and its login stays. */
  function AdmitUser(w: World, id: ClientId, name: Name, uid: Uid, a: Answers): World {
    var v := w.(users := w.users[name := uid], log := w.log + [Created(id, name, uid)]);
    var u := Accept(v, id, a.forcedIntoCreator || uid == INVALID_UID);
    if id in u.clients && a.addressKnown then u.(logins := u.logins - {id}) else u
  }

  /** The effect of a decision on the head of the response queue. */
  function PerformResponse(w: World, d: ResponseDecision, a: Answers): World
    requires w.responses != [] && w.responses[0] in w.logins
  {
    var id := w.responses[0];
    var login := w.logins[id];
    match d
    case WaitForData => w
    case LoadCharacter(uid) =>
      w.(logins := w.logins[id := login.(characterLoadRequested := true)],
         log := w.log + [CharacterLoadRequested(login.userName, uid)])
    case RefuseResponse(reason) => Reject(w.(responses := w.responses[1..]), id, reason)
    case Admit(uid) => AdmitUser(w.(responses := w.responses[1..]), id, login.userName, uid, a)
  }

  function ProcessLoginResponse(w: World, a: Answers): World {
    if w.responses == [] then w
    else
      var id, login := w.responses[0], LoginOf(w, w.responses[0]);
      PerformResponse(
        w.(logins := w.logins[id := login], log := w.log + ResponseFindings(id, login, a)),
        DecideResponse(login, a, login.userName in w.users),
        a)
  }
}
