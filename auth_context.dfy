/** The front end's session manager (`AuthProvider`): a three-valued status,
    the bearer token, the server's user record, and the token kept in the
    browser's storage under the key 'token'. The effect that re-runs
    `verifySession` whenever the token changes is an explicit call to `Verify`;
    the decoded token, the clock and the answer of `/users/me` are parameters. */
module AuthContext {
  import opened Text

  datatype AuthStatus = Unknown | Authenticated | Unauthenticated

  /** The `/users/me` body the provider keeps as `user`. */
  datatype UserInfo = UserInfo(
    id: int,
    email: Option<string>,
    fullName: Option<string>,
    bio: Option<string>,
    isActive: bool,
    isSuperuser: bool)

  /** What `jwtDecode(token)` gives: it throws on a malformed token, else the
      claims, of which only `exp` (NumericDate, seconds) is read. */
  datatype Decoded = Malformed | Claims(exp: Option<int>)

  /** The settled outcome of one HTTP request: the response body, or an
      error carrying the server's `detail` when the response had one. */
  datatype Response<T> = Ok(body: T) | Failed(detail: Option<string>)

  /** How a request settled when its failure text is
      `err.response?.data?.detail || err.message`: fulfilled, or rejected
      with the server's `detail` when there was one and the error's own
      message. */
  datatype Settled = Fulfilled | Rejected(detail: Option<string>, message: string)

  /** The object `login` and `register` resolve to. `needsVerify` is absent
      (None) in the object `login` returns. */
  datatype Reply = Success(needsVerify: Option<bool>) | Failure(error: string)

  /** `decoded.exp * 1000 < Date.now()`: seconds against milliseconds. A token
      without `exp` gives NaN, and a comparison with NaN is false. */
  predicate IsExpired(exp: Option<int>, nowMs: int) {
    exp.Some? && exp.value * 1000 < nowMs
  }

  /** A token whose `exp` equals the current second is not expired yet, one
      millisecond later it is, and a token without `exp` never is. */
  lemma ExpiryBoundary(exp: int)
    ensures !IsExpired(Some(exp), exp * 1000)
    ensures IsExpired(Some(exp), exp * 1000 + 1)
    ensures !IsExpired(None, exp)
  {
  }

  class AuthProvider {
    var status: AuthStatus
    var token: Option<string>
    var user: Option<UserInfo>
    /** The value stored under 'token' in the browser's storage. */
    var stored: Option<string>

    /** A user record is held exactly while the status is AUTHENTICATED, and
        then the stored token is the live one. */
    ghost predicate Valid()
      reads this
    {
      && (user.Some? <==> status.Authenticated?)
      && (status.Authenticated? ==> stored == token)
    }

    /** `useState(localStorage.getItem('token') || null)`: an empty stored
        string also starts as null; the status always starts UNKNOWN. */
    constructor (storedToken: Option<string>)
      ensures Valid()
      ensures status.Unknown? && user == None
      ensures token == (if Truthy(storedToken) then storedToken else None)
      ensures stored == storedToken
    {
      status := Unknown;
      user := None;
      token := if storedToken.Some? && storedToken.value != "" then storedToken else None;
      stored := storedToken;
    }

    /** `verifySession`. Reports whether `/users/me` was requested. */
    method Verify(decoded: Decoded, nowMs: int, whoami: Response<UserInfo>) returns (askedServer: bool)
      modifies this
      ensures Valid()
      ensures askedServer <==> Truthy(old(token)) && decoded.Claims? && !IsExpired(decoded.exp, nowMs)
      ensures !Truthy(old(token)) ==>
        status.Unauthenticated? && user == None && token == old(token) && stored == old(stored)
      ensures askedServer && whoami.Ok? ==>
        status.Authenticated? && user == Some(whoami.body) && token == old(token) && stored == old(token)
      ensures Truthy(old(token)) && !(askedServer && whoami.Ok?) ==>
        status.Unauthenticated? && user == None && token == None && stored == None
    {
      if !(token.Some? && token.value != "") {
        status := Unauthenticated;
        user := None;
        return false;
      }
      var failed := false;
      askedServer := false;
      if decoded.Malformed? || IsExpired(decoded.exp, nowMs) {
        failed := true;
      } else {
        askedServer := true;
        if whoami.Ok? {
          user := Some(whoami.body);
          status := Authenticated;
          stored := token;
        } else {
          failed := true;
        }
      }
      if failed {
        stored := None;
        token := None;
        user := None;
        status := Unauthenticated;
      }
    }

    /** `login`: on success only the token (live and stored) changes; the
        status is left to the next `Verify`. Never throws. */
    method Login(response: Response<string>) returns (r: Reply)
      requires Valid()
      modifies this
      ensures Valid()
      ensures status == old(status) && user == old(user)
      ensures response.Ok? ==>
        r == Success(None) && token == Some(response.body) && stored == Some(response.body)
      ensures response.Failed? ==>
        r == Failure(OrElse(response.detail, "Login failed")) && token == old(token) && stored == old(stored)
    {
      if response.Ok? {
        token := Some(response.body);
        stored := Some(response.body);
        r := Success(None);
      } else {
        r := Failure(OrElse(response.detail, "Login failed"));
      }
    }

    /** `register`: never touches the session and never throws. */
    method Register(response: Response<()>) returns (r: Reply)
      ensures r.Success? <==> response.Ok?
      ensures r.Success? ==> r.needsVerify == Some(false)
      ensures response.Failed? ==> r.error == OrElse(response.detail, "Registration failed")
    {
      if response.Ok? {
        r := Success(Some(false));
      } else {
        r := Failure(OrElse(response.detail, "Registration failed"));
      }
    }

    /** `logout`: immediate, no request. */
    method Logout()
      modifies this
      ensures Valid()
      ensures status.Unauthenticated? && token == None && user == None && stored == None
    {
      token := None;
      user := None;
      status := Unauthenticated;
      stored := None;
    }
  }

  /** A login followed by the verification its token change triggers (the
      effect runs only when the token value actually changed). The status seen
      between the two steps is the one before the login: there is no
      UNAUTHENTICATED flash on the way to AUTHENTICATED. */
  method SignIn(p: AuthProvider, response: Response<string>, decoded: Decoded, nowMs: int,
                whoami: Response<UserInfo>)
    returns (r: Reply, between: AuthStatus, askedServer: bool)
    requires p.Valid()
    modifies p
    ensures p.Valid()
    ensures between == old(p.status)
    ensures r.Success? <==> response.Ok?
    ensures response.Ok? && response.body != "" && old(p.token) != Some(response.body)
            && decoded.Claims? && !IsExpired(decoded.exp, nowMs) && whoami.Ok? ==>
      askedServer && p.status.Authenticated? && p.user == Some(whoami.body)
      && p.token == Some(response.body) && p.stored == p.token
    ensures response.Failed? ==> !askedServer && p.status == old(p.status) && p.token == old(p.token)
  {
    var before := p.token;
    r := p.Login(response);
    between := p.status;
    askedServer := false;
    if p.token != before {
      askedServer := p.Verify(decoded, nowMs, whoami);
    }
  }
}
