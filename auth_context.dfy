/**
 * The session provider (src/context/AuthContext.js): the signed-in user and
 * token, their two storage keys, the id-based choice of login endpoint, and
 * `logout`. The configured admin id and backend URL are parameters.
 */
module AuthContext {
  import opened Wrappers
  import opened Text
  import opened Http

  /** A user record as the server returns it; the screens read its id, role and favourites. */
  datatype User = User(id: string, role: string, favoriteNotes: Option<seq<string>>)

  /**
   * A value in browser storage. `StoredText` is any other text, for instance
   * the "undefined" that `JSON.stringify(undefined)` leaves behind. The model
   * reads it as no user; `JSON.parse` on a reload throws on such text instead.
   */
  datatype Stored = StoredUser(user: User) | StoredToken(token: string) | StoredText(text: string)

  const UserKey: string := "user"
  const TokenKey: string := "token"

  /** The build-time settings: `REACT_APP_ADMIN_ID` and `REACT_APP_BACKEND_URL`, each possibly unset. */
  datatype Config = Config(adminId: Option<string>, backendUrl: Option<string>)

  /** The three login endpoints. */
  datatype Endpoint = AdminLogin | FacultyLogin | StudentLogin
  {
    function Path(): string {
      match this
      case AdminLogin => "admin/login"
      case FacultyLogin => "faculty/login"
      case StudentLogin => "student/login"
    }

    /** The body key that carries the id. */
    function BodyKey(): string {
      match this
      case AdminLogin => "adminId"
      case FacultyLogin => "employeeId"
      case StudentLogin => "rollNumber"
    }
  }

  const CredentialsRequired: string := "ID and password required"
  const LoginFailed: string := "Login failed"
  /** The message of the `TypeError` raised by reading `role` of a missing user record. */
  const MissingRecordMessage: string := "Cannot read properties of undefined (reading 'role')"

  /**
   * The endpoint for a trimmed id: the configured admin id wins, then the
   * "FAC" prefix of a faculty employee id; every other id is a roll number.
   */
  function EndpointFor(id: string, adminId: Option<string>): (e: Endpoint)
    ensures e == AdminLogin <==> adminId == Some(id)
    ensures e == FacultyLogin <==> adminId != Some(id) && StartsWith(id, "FAC")
    ensures e == StudentLogin <==> adminId != Some(id) && !StartsWith(id, "FAC")
  {
    if adminId == Some(id) then AdminLogin
    else if StartsWith(id, "FAC") then FacultyLogin
    else StudentLogin
  }

  /** `s.split(sep)[0]`: the text before the first separator. */
  function FirstSegment(s: string, sep: char): (r: string)
    ensures |r| <= |s| && r == s[..|r|]
    ensures sep !in r
    ensures |r| < |s| ==> s[|r|] == sep
  {
    if s == [] || s[0] == sep then [] else [s[0]] + FirstSegment(s[1..], sep)
  }

  /** `endpoint === "admin/login" ? "admin" : endpoint.split("/")[0]`: the response key of the user record. */
  function RecordKey(path: string): string {
    if path == "admin/login" then "admin" else FirstSegment(path, '/')
  }

  /** The first segment of `a + sep + b` is `a` when `a` holds no separator. */
  lemma {:induction false} FirstSegmentOfJoin(a: string, sep: char, b: string)
    requires sep !in a
    ensures FirstSegment(a + [sep] + b, sep) == a
  {
    if a != [] {
      assert (a + [sep] + b)[1..] == a[1..] + [sep] + b;
      FirstSegmentOfJoin(a[1..], sep, b);
    }
  }

  /** Each endpoint's user record sits under the role it names. */
  lemma RecordKeyOfEndpoint(e: Endpoint)
    ensures RecordKey(e.Path()) == match e
      case AdminLogin => "admin"
      case FacultyLogin => "faculty"
      case StudentLogin => "student"
  {
    if e == FacultyLogin {
      assert e.Path() == "faculty" + ['/'] + "login";
      FirstSegmentOfJoin("faculty", '/', "login");
    } else if e == StudentLogin {
      assert e.Path() == "student" + ['/'] + "login";
      FirstSegmentOfJoin("student", '/', "login");
    }
  }

  /** `s.replace(/\/$/, "")`: at most one trailing slash is removed. */
  function StripTrailingSlash(s: string): (r: string)
    ensures r == s || r + "/" == s
    ensures r == s <==> s == [] || s[|s| - 1] != '/'
  {
    if s != [] && s[|s| - 1] == '/' then s[..|s| - 1] else s
  }

  /** Only one slash goes: a base ending in two keeps one. */
  lemma StripOnlyOneSlash(s: string)
    ensures StripTrailingSlash(s + "//") == s + "/"
  {
  }

  /** `${(REACT_APP_BACKEND_URL?.trim() || "").replace(/\/$/, "")}/auth/${endpoint}`. */
  function LoginUrl(backendUrl: Option<string>, e: Endpoint): string {
    StripTrailingSlash(Trim(backendUrl.GetOr(""))) + "/auth/" + e.Path()
  }

  /** The login URL ends in the endpoint's path, and begins with the base whenever the base has no trailing slash. */
  lemma LoginUrlShape(base: string, e: Endpoint)
    requires Trim(base) == base && (base == [] || base[|base| - 1] != '/')
    ensures LoginUrl(Some(base), e) == base + "/auth/" + e.Path()
  {
  }

  /** The POST `login` sends: its URL, the endpoint, and the trimmed id and password. */
  datatype LoginRequest = LoginRequest(url: string, endpoint: Endpoint, id: string, password: string)

  /** What `login` decides before any request: refuse, or send. */
  datatype LoginPlan = Refuse(message: string) | Send(request: LoginRequest)

  /**
   * The pure part of `login`: the inputs are trimmed (an absent one stays
   * absent); either being empty refuses with no request.
   */
  function PlanLogin(idRaw: Option<string>, passwordRaw: Option<string>, config: Config): (p: LoginPlan)
    ensures p.Refuse? <==> idRaw.None? || passwordRaw.None? || IsBlank(idRaw.value) || IsBlank(passwordRaw.value)
    ensures p.Refuse? ==> p.message == CredentialsRequired
    ensures p.Send? ==>
      var id := Trim(idRaw.value);
      p.request == LoginRequest(LoginUrl(config.backendUrl, EndpointFor(id, config.adminId)),
                                EndpointFor(id, config.adminId), id, Trim(passwordRaw.value))
  {
    if idRaw.None? || passwordRaw.None? then Refuse(CredentialsRequired)
    else
      var id := Trim(idRaw.value);
      var password := Trim(passwordRaw.value);
      if id == "" || password == "" then Refuse(CredentialsRequired)
      else
        var e := EndpointFor(id, config.adminId);
        Send(LoginRequest(LoginUrl(config.backendUrl, e), e, id, password))
  }

  /** An id is routed by its trimmed form, so padding never changes the endpoint. */
  lemma PaddingKeepsEndpoint(id: string, password: string, config: Config)
    requires !IsBlank(id) && !IsBlank(password)
    ensures PlanLogin(Some(" " + id + " "), Some(password), config) == PlanLogin(Some(id), Some(password), config)
  {
    TrimOfPadded(id);
  }

  /** Padding a string with one space at each end does not change its trim. */
  lemma TrimOfPadded(s: string)
    ensures Trim(" " + s + " ") == Trim(s)
  {
    assert (" " + s + " ")[1..] == s + " ";
    assert TrimStart(" " + s + " ") == TrimStart(s + " ");
    TrimStartOfAppend(s, ' ');
    FoldIgnoresTrailingSpace(s, ' ');
    TrimEndAppendSpace(TrimStart(s));
  }

  /** A trailing space is always trimmed away. */
  lemma TrimEndAppendSpace(s: string)
    ensures TrimEnd(s + " ") == TrimEnd(s)
  {
    assert (s + " ")[..|s|] == s;
  }

  /** The server's successful reply: the token and the user record under its role key. */
  datatype LoginResponse = LoginResponse(token: string, records: map<string, User>)

  /** `{ success: true, role }` or `{ success: false, message }`. */
  datatype LoginOutcome = Success(role: string) | Failure(message: string)

  /** The user stored under "user", if it parses as one; `JSON.parse(...) || null`. */
  function StoredUserOf(storage: map<string, Stored>): (u: Option<User>)
    ensures u.Some? <==> UserKey in storage && storage[UserKey].StoredUser?
  {
    if UserKey in storage && storage[UserKey].StoredUser? then Some(storage[UserKey].user) else None
  }

  /** The token stored under "token"; `getItem("token") || null` turns an empty token into none. */
  function StoredTokenOf(storage: map<string, Stored>): (t: Option<string>)
    ensures t.Some? ==> TokenKey in storage && storage[TokenKey] == StoredToken(t.value) && t.value != ""
    ensures TokenKey in storage && storage[TokenKey].StoredToken? && storage[TokenKey].token != "" ==> t.Some?
  {
    if TokenKey in storage && storage[TokenKey].StoredToken? && storage[TokenKey].token != ""
    then Some(storage[TokenKey].token) else None
  }

  /** The provider's state: the session and the browser storage it mirrors. */
  class AuthSession {
    var user: Option<User>
    var token: Option<string>
    var storage: map<string, Stored>

    /** The provider's initial state, read from storage. */
    constructor (storage: map<string, Stored>)
      ensures this.storage == storage
      ensures user == StoredUserOf(storage) && token == StoredTokenOf(storage)
    {
      this.storage := storage;
      user := StoredUserOf(storage);
      token := StoredTokenOf(storage);
    }

    /** `logout`: the session and both storage keys are cleared; other keys stay. */
    method Logout()
      modifies this
      ensures user.None? && token.None?
      ensures storage == old(storage) - {UserKey, TokenKey}
    {
      user, token := None, None;
      storage := storage - {UserKey, TokenKey};
    }

    /** The mount effect: without both a token and a user, log out. */
    method CheckOnLoad()
      modifies this
      ensures old(token).None? || old(user).None? ==>
        user.None? && token.None? && storage == old(storage) - {UserKey, TokenKey}
      ensures old(token).Some? && old(user).Some? ==>
        user == old(user) && token == old(token) && storage == old(storage)
      ensures user.Some? <==> token.Some?
    {
      if token.None? || user.None? {
        Logout();
      }
    }

    /**
     * `login`: a refused plan sends nothing; `reply` is the outcome of the
     * POST otherwise. Success sets and stores the user and token. A failed
     * request leaves the session untouched. A response without the record
     * under the role key still sets the token and an undefined user before
     * reading its role fails.
     */
    method Login(idRaw: Option<string>, passwordRaw: Option<string>, config: Config, reply: Reply<LoginResponse>)
      returns (request: Option<LoginRequest>, outcome: LoginOutcome)
      modifies this
      ensures request.None? <==> PlanLogin(idRaw, passwordRaw, config).Refuse?
      ensures request.Some? ==> request.value == PlanLogin(idRaw, passwordRaw, config).request
      ensures request.None? ==>
        outcome == Failure(CredentialsRequired) &&
        user == old(user) && token == old(token) && storage == old(storage)
      ensures request.Some? && reply.Failed? ==>
        outcome == Failure(FailureMessage(reply, LoginFailed)) &&
        user == old(user) && token == old(token) && storage == old(storage)
      ensures request.Some? && reply.Ok? ==>
        var key := RecordKey(request.value.endpoint.Path());
        token == Some(reply.data.token) &&
        (key in reply.data.records ==>
          user == Some(reply.data.records[key]) && outcome == Success(reply.data.records[key].role) &&
          storage == old(storage)[UserKey := StoredUser(reply.data.records[key])][TokenKey := StoredToken(reply.data.token)]) &&
        (key !in reply.data.records ==>
          user.None? && outcome == Failure(MissingRecordMessage) &&
          storage == old(storage)[UserKey := StoredText("undefined")][TokenKey := StoredToken(reply.data.token)])
    {
      var plan := PlanLogin(idRaw, passwordRaw, config);
      if plan.Refuse? {
        return None, Failure(plan.message);
      }
      request := Some(plan.request);
      match reply {
        case Failed(_, _) =>
          outcome := Failure(FailureMessage(reply, LoginFailed));
        case Ok(data) =>
          var key := RecordKey(plan.request.endpoint.Path());
          if key in data.records {
            var u := data.records[key];
            user, token := Some(u), Some(data.token);
            storage := storage[UserKey := StoredUser(u)][TokenKey := StoredToken(data.token)];
            outcome := Success(u.role);
          } else {
            user, token := None, Some(data.token);
            storage := storage[UserKey := StoredText("undefined")][TokenKey := StoredToken(data.token)];
            outcome := Failure(MissingRecordMessage);
          }
      }
    }
  }

  /** A stored session survives a reload: the provider reads back exactly what `login` wrote. */
  lemma StoredSessionReadsBack(storage: map<string, Stored>, u: User, t: string)
    requires t != ""
    ensures StoredUserOf(storage[UserKey := StoredUser(u)][TokenKey := StoredToken(t)]) == Some(u)
    ensures StoredTokenOf(storage[UserKey := StoredUser(u)][TokenKey := StoredToken(t)]) == Some(t)
  {
    var s := storage[UserKey := StoredUser(u)][TokenKey := StoredToken(t)];
    assert UserKey != TokenKey;
    assert s[UserKey] == StoredUser(u);
  }

  /** After `logout` a reload finds no session. */
  lemma LoggedOutStorageReadsEmpty(storage: map<string, Stored>)
    ensures StoredUserOf(storage - {UserKey, TokenKey}).None?
    ensures StoredTokenOf(storage - {UserKey, TokenKey}).None?
  {
  }
}
