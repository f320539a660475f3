/**
 * The client's session actions (register, login, logout) and their effect on the
 * browser's persisted key/value storage, whose only key they touch is "token".
 * The server's reply is an input: a body, an error response, or no response at all.
 */
module UserActions {
  import opened Wrappers
  import opened Entities

  /** The persisted key/value storage of the browser. */
  type Storage = map<string, string>

  const TokenKey: string := "token"

  /** The single value every handled failure is rejected with. */
  const FailedValue: string := "Failed"

  /** The error raised when the failure handler reads the response of a failure that has none. */
  const MissingResponseError: string := "TypeError"

  /** The body of a successful register or login reply. */
  datatype AuthResponse = AuthResponse(user: User, accessToken: string)

  /** How a request ends: a 2xx body, an error response with its message, or no response (network failure). */
  datatype Reply<T> = Ok(body: T) | ErrorResponse(message: string) | NoResponse

  /** How the action settles: fulfilled with a value, rejected with a value, or rejected by a thrown error. */
  datatype Settled<T> = Fulfilled(value: T) | Rejected(payload: string) | Thrown(error: string)

  /** The storage after the action and how the action settled. */
  datatype Outcome<T> = Outcome(storage: Storage, result: Settled<T>)

  /** The token slot of the storage. */
  function Token(s: Storage): Option<string> {
    if TokenKey in s then Some(s[TokenKey]) else None
  }

  /** Storages that agree on every key except the token. */
  ghost predicate SameExceptToken(s: Storage, s': Storage) {
    forall k :: k != TokenKey ==> (k in s <==> k in s') && (k in s ==> s[k] == s'[k])
  }

  /**
   * Register and login as written: on success the access token is stored and the
   * user returned; the failure handler logs the response's message, which throws
   * when there is no response, so that failure escapes as a thrown error.
   */
  function AuthenticateAsWritten(s: Storage, reply: Reply<AuthResponse>): (o: Outcome<User>)
    ensures reply.Ok? ==> o == Outcome(s[TokenKey := reply.body.accessToken], Fulfilled(reply.body.user))
    ensures !reply.Ok? ==> o.storage == s
    ensures reply.NoResponse? ==> o.result == Thrown(MissingResponseError)
  {
    match reply
    case Ok(data) => Outcome(s[TokenKey := data.accessToken], Fulfilled(data.user))
    case ErrorResponse(_) => Outcome(s, Rejected(FailedValue))
    case NoResponse => Outcome(s, Thrown(MissingResponseError))
  }

  /** Register and login with every failure rejected with "Failed". */
  function Authenticate(s: Storage, reply: Reply<AuthResponse>): (o: Outcome<User>)
    ensures reply.Ok? ==> Token(o.storage) == Some(reply.body.accessToken)
    ensures reply.Ok? ==> o.result == Fulfilled(reply.body.user)
    ensures !reply.Ok? ==> o == Outcome(s, Rejected(FailedValue))
    ensures SameExceptToken(s, o.storage)
  {
    match reply
    case Ok(data) => Outcome(s[TokenKey := data.accessToken], Fulfilled(data.user))
    case _ => Outcome(s, Rejected(FailedValue))
  }

  /** The register action. */
  function Register(s: Storage, reply: Reply<AuthResponse>): (o: Outcome<User>)
    ensures reply.Ok? ==> Token(o.storage) == Some(reply.body.accessToken) && o.result == Fulfilled(reply.body.user)
    ensures !reply.Ok? ==> o.storage == s && o.result == Rejected(FailedValue)
    ensures SameExceptToken(s, o.storage)
  {
    Authenticate(s, reply)
  }

  /** The login action. */
  function Login(s: Storage, reply: Reply<AuthResponse>): (o: Outcome<User>)
    ensures reply.Ok? ==> Token(o.storage) == Some(reply.body.accessToken) && o.result == Fulfilled(reply.body.user)
    ensures !reply.Ok? ==> o.storage == s && o.result == Rejected(FailedValue)
    ensures SameExceptToken(s, o.storage)
  {
    Authenticate(s, reply)
  }

  /** The logout action as written: a reply without a response escapes as a thrown error. */
  function LogoutAsWritten(s: Storage, reply: Reply<()>): (o: Outcome<()>)
    ensures reply.Ok? ==> o == Outcome(s - {TokenKey}, Fulfilled(()))
    ensures !reply.Ok? ==> o.storage == s
    ensures reply.NoResponse? ==> o.result == Thrown(MissingResponseError)
  {
    match reply
    case Ok(_) => Outcome(s - {TokenKey}, Fulfilled(()))
    case ErrorResponse(_) => Outcome(s, Rejected(FailedValue))
    case NoResponse => Outcome(s, Thrown(MissingResponseError))
  }

  /** The logout action: the token is removed only after the server confirms. */
  function Logout(s: Storage, reply: Reply<()>): (o: Outcome<()>)
    ensures reply.Ok? ==> Token(o.storage) == None && o.result == Fulfilled(())
    ensures !reply.Ok? ==> o == Outcome(s, Rejected(FailedValue))
    ensures SameExceptToken(s, o.storage)
  {
    match reply
    case Ok(_) => Outcome(s - {TokenKey}, Fulfilled(()))
    case _ => Outcome(s, Rejected(FailedValue))
  }

  /** As written, a request that gets no response does not reject with "Failed". */
  lemma NoResponseEscapesFailed(s: Storage)
    ensures AuthenticateAsWritten(s, NoResponse).result != Rejected(FailedValue)
    ensures LogoutAsWritten(s, NoResponse).result != Rejected(FailedValue)
    ensures Authenticate(s, NoResponse).result == Rejected(FailedValue)
    ensures Logout(s, NoResponse).result == Rejected(FailedValue)
  {
  }

  /** The two definitions agree on every reply that has a response. */
  lemma AsWrittenAgreesWithResponse(s: Storage, auth: Reply<AuthResponse>, out: Reply<()>)
    requires !auth.NoResponse? && !out.NoResponse?
    ensures AuthenticateAsWritten(s, auth) == Authenticate(s, auth)
    ensures LogoutAsWritten(s, out) == Logout(s, out)
  {
  }

  /** One session action together with the server's reply to it. */
  datatype Event =
    | RegisterEvent(auth: Reply<AuthResponse>)
    | LoginEvent(auth: Reply<AuthResponse>)
    | LogoutEvent(out: Reply<()>)

  function Step(s: Storage, e: Event): Storage {
    match e
    case RegisterEvent(r) => Register(s, r).storage
    case LoginEvent(r) => Login(s, r).storage
    case LogoutEvent(r) => Logout(s, r).storage
  }

  /** The storage after a sequence of actions, applied in order. */
  function Run(s: Storage, events: seq<Event>): Storage
    decreases |events|
  {
    if events == [] then s else Run(Step(s, events[0]), events[1..])
  }

  /**
   * Reference definition of the token after a sequence of actions: set by the last
   * successful register or login, unless a later logout succeeded; otherwise as before.
   */
  function ExpectedToken(initial: Option<string>, events: seq<Event>): Option<string>
    decreases |events|
  {
    if events == [] then initial
    else
      match events[|events| - 1]
      case RegisterEvent(Ok(data)) => Some(data.accessToken)
      case LoginEvent(Ok(data)) => Some(data.accessToken)
      case LogoutEvent(Ok(_)) => None
      case _ => ExpectedToken(initial, events[..|events| - 1])
  }

  lemma {:induction false} RunSnoc(s: Storage, events: seq<Event>, e: Event)
    ensures Run(s, events + [e]) == Step(Run(s, events), e)
    decreases |events|
  {
    if events == [] {
      assert Run(Step(s, e), []) == Step(s, e);
    } else {
      assert (events + [e])[1..] == events[1..] + [e];
      RunSnoc(Step(s, events[0]), events[1..], e);
    }
  }

  /** The stored token after any sequence of actions is the one the reference definition predicts. */
  lemma {:induction false} RunToken(s: Storage, events: seq<Event>)
    ensures Token(Run(s, events)) == ExpectedToken(Token(s), events)
    decreases |events|
  {
    if events != [] {
      var init, last := events[..|events| - 1], events[|events| - 1];
      assert events == init + [last];
      RunSnoc(s, init, last);
      RunToken(s, init);
    }
  }

  /** No sequence of actions changes any key but the token. */
  lemma {:induction false} RunKeepsOtherKeys(s: Storage, events: seq<Event>)
    ensures SameExceptToken(s, Run(s, events))
    decreases |events|
  {
    if events != [] {
      var s1 := Step(s, events[0]);
      RunKeepsOtherKeys(s1, events[1..]);
    }
  }

  predicate Failed(e: Event) {
    match e
    case RegisterEvent(r) => !r.Ok?
    case LoginEvent(r) => !r.Ok?
    case LogoutEvent(r) => !r.Ok?
  }

  /** Failed actions leave the storage exactly as it was. */
  lemma {:induction false} FailuresLeaveStorage(s: Storage, events: seq<Event>)
    requires forall i :: 0 <= i < |events| ==> Failed(events[i])
    ensures Run(s, events) == s
    decreases |events|
  {
    if events != [] {
      FailuresLeaveStorage(s, events[1..]);
    }
  }
}
