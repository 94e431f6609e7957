/**
 * The session side of the API client (`authService`): the Bearer header
 * derived from the stored token, what `login` stores, and the status checks
 * of `createAccount` and `deleteUser`. Each HTTP call is replaced by the
 * reply it gets, passed in as a parameter.
 */
module AuthService {
  import opened Wrappers
  import opened Storage

  /** The name of the header that carries the token. */
  const AuthorizationHeader := "Authorization"
  /** What precedes the token in that header. */
  const BearerPrefix := "Bearer "

  /** `getAuthHeader()`: a Bearer header when a non-empty token is stored, no header otherwise. */
  function AuthHeader(items: map<string, string>): map<string, string>
  {
    match StoredValue(items, TokenKey)
    case Some(token) => map[AuthorizationHeader := BearerPrefix + token]
    case None => map[]
  }

  /** The token a server reads back from a header set: the text after "Bearer ", if any. */
  function BearerToken(headers: map<string, string>): Option<string>
  {
    if AuthorizationHeader in headers && BearerPrefix <= headers[AuthorizationHeader]
    then Some(headers[AuthorizationHeader][|BearerPrefix|..])
    else None
  }

  /**
   * The header carries exactly the stored token: reading it back gives the
   * stored non-empty token, and there is no header at all when none is stored.
   */
  lemma AuthHeaderRoundTrip(items: map<string, string>)
    ensures BearerToken(AuthHeader(items)) == StoredValue(items, TokenKey)
    ensures AuthHeader(items) == map[] <==> StoredValue(items, TokenKey).None?
    ensures AuthHeader(items).Keys <= {AuthorizationHeader}
  {
    if StoredValue(items, TokenKey).Some? {
      var token := StoredValue(items, TokenKey).value;
      assert AuthorizationHeader in AuthHeader(items);
      assert (BearerPrefix + token)[|BearerPrefix|..] == token;
    }
  }

  /** The body of a login reply; either field may be missing. */
  datatype LoginResponse = LoginResponse(token: Option<string>, roles: Option<seq<string>>)

  /** A failed call: a non-2xx reply or no reply (axios rejects), or an error the code throws. */
  datatype Failure = HttpError(status: int) | NoReply | Thrown(message: string)

  /** What an HTTP call yields: the status and body of the reply, or no reply at all. */
  datatype Reply<D> = Response(status: int, data: D) | NoResponse

  /** The statuses for which axios resolves instead of rejecting. */
  predicate IsSuccessStatus(status: int) {
    200 <= status < 300
  }

  /** How axios settles a call: with the reply, or with the failure it rejects with. */
  function Settle<D>(reply: Reply<D>): (r: Result<Reply<D>, Failure>)
    ensures r.Success? <==> reply.Response? && IsSuccessStatus(reply.status)
    ensures r.Success? ==> r.value == reply
    ensures r.Failure? && reply.Response? ==> r.error == HttpError(reply.status)
    ensures reply.NoResponse? ==> r == Failure(NoReply)
  {
    match reply
    case NoResponse => Failure(NoReply)
    case Response(status, _) =>
      if IsSuccessStatus(status) then Success(reply) else Failure(HttpError(status))
  }

  /**
   * `roles[0]` as `setItem` stores it: the first role, or the string
   * "undefined" when the list is empty.
   */
  function FirstRole(roles: seq<string>): string
  {
    if |roles| > 0 then roles[0] else "undefined"
  }

  /** Whether `login` stores the session: the token is truthy and the roles are present. */
  predicate StoresSession(data: LoginResponse) {
    data.token.Some? && data.token.value != "" && data.roles.Some?
  }

  /** The storage after a successful login reply with body `data`. */
  function AfterLogin(items: map<string, string>, data: LoginResponse): map<string, string>
  {
    if StoresSession(data)
    then items[TokenKey := data.token.value][RoleKey := FirstRole(data.roles.value)]
    else items
  }

  /**
   * What login leaves behind: a session reply makes the header carry its
   * token and stores its first role, touching no other key; any other reply
   * changes nothing.
   */
  lemma AfterLoginSpec(items: map<string, string>, data: LoginResponse)
    ensures StoresSession(data) ==>
      && StoredValue(AfterLogin(items, data), TokenKey) == data.token
      && AuthHeader(AfterLogin(items, data)) == map[AuthorizationHeader := BearerPrefix + data.token.value]
      && AfterLogin(items, data)[RoleKey] == FirstRole(data.roles.value)
      && forall k :: k != TokenKey && k != RoleKey ==>
           (k in AfterLogin(items, data) <==> k in items) &&
           (k in items ==> AfterLogin(items, data)[k] == items[k])
    ensures !StoresSession(data) ==> AfterLogin(items, data) == items
  {
  }

  /**
   * `login(username, password)`: when the reply settles, a reply with a
   * truthy token and a roles list stores the token and the first role; the
   * body is returned as received either way. A rejected call stores nothing.
   */
  method Login(storage: LocalStorage, reply: Reply<LoginResponse>) returns (r: Result<LoginResponse, Failure>)
    modifies storage
    ensures Settle(reply).Success? ==> r == Success(reply.data) && storage.items == AfterLogin(old(storage.items), reply.data)
    ensures Settle(reply).Failure? ==> r == Failure(Settle(reply).error) && storage.items == old(storage.items)
  {
    var settled := Settle(reply);
    if settled.Failure? {
      return Failure(settled.error);
    }
    var data := reply.data;
    if data.token.Some? && data.token.value != "" && data.roles.Some? {
      storage.SetItem(TokenKey, data.token.value);
      storage.SetItem(RoleKey, FirstRole(data.roles.value));
    }
    return Success(data);
  }

  /** The body `createAccount` posts: every new account asks for the user role only. */
  datatype Registration = Registration(username: string, email: string, password: string, roles: seq<string>)

  const CreateAccountFailed := "Failed to create account"
  const DeleteUserFailed := "Failed to delete user"

  /** The registration body for a new account. */
  function RegistrationFor(username: string, email: string, password: string): (body: Registration)
    ensures body.roles == ["ROLE_USER"]
    ensures body.username == username && body.email == email && body.password == password
  {
    Registration(username, email, password, ["ROLE_USER"])
  }

  /**
   * `createAccount`'s outcome: the reply body when the status is 201; a 2xx
   * status other than 201 throws its own error, and a rejected call fails
   * with the rejection.
   */
  function CreateAccountOutcome<D>(reply: Reply<D>): (r: Result<D, Failure>)
    ensures r.Success? <==> reply.Response? && reply.status == 201
    ensures r.Success? ==> r.value == reply.data
    ensures reply.Response? && IsSuccessStatus(reply.status) && reply.status != 201 ==>
      r == Failure(Thrown(CreateAccountFailed))
    ensures Settle(reply).Failure? ==> r == Failure(Settle(reply).error)
  {
    match Settle(reply)
    case Failure(e) => Failure(e)
    case Success(Response(status, data)) =>
      if status != 201 then Failure(Thrown(CreateAccountFailed)) else Success(data)
  }

  /**
   * `deleteUser`'s outcome: the reply body when the status is 204; otherwise
   * the error caught, its own for a 2xx status other than 204 and the
   * rejection for any other, is thrown again unchanged.
   */
  function DeleteUserOutcome<D>(reply: Reply<D>): (r: Result<D, Failure>)
    ensures r.Success? <==> reply.Response? && reply.status == 204
    ensures r.Success? ==> r.value == reply.data
    ensures reply.Response? && IsSuccessStatus(reply.status) && reply.status != 204 ==>
      r == Failure(Thrown(DeleteUserFailed))
    ensures Settle(reply).Failure? ==> r == Failure(Settle(reply).error)
  {
    var attempt := match Settle(reply)
      case Failure(e) => Failure(e)
      case Success(Response(status, data)) =>
        if status != 204 then Failure(Thrown(DeleteUserFailed)) else Success(data);
    match attempt
    case Success(data) => Success(data)
    case Failure(caught) => Failure(caught)
  }
}
