/** The backend's credential rules: the bcrypt input limit, the claims a
    token carries, and the chain of request dependencies that turn a bearer
    token into the current (active, superuser) user. Hashing, token signing
    and token decoding are outside the model: the hash is a function
    parameter and the decoded payload is given. */
module Auth {
  import opened Text
  import opened Models

  /** An `HTTPException` (or, for status 500, an unhandled exception). */
  datatype HttpError = HttpError(status: int, detail: string)

  datatype Result<T> = Ok(value: T) | Err(error: HttpError)

  /** A claim value in a token payload. */
  datatype Claim = Str(s: string) | Flag(b: bool) | Num(n: int) | Time(t: int)

  const MaxPasswordBytes: nat := 72
  const DefaultExpirySeconds: int := 15 * 60

  /** `get_password_hash`: inputs whose UTF-8 encoding is longer than 72
      bytes raise ValueError. Nothing catches it, so the client sees a
      generic 500 "Internal Server Error"; the detail here is the
      exception's own message, kept for the server log. */
  function GetPasswordHash(password: string, hash: string -> string): (r: Result<string>)
    ensures r.Ok? <==> Utf8Length(password) <= MaxPasswordBytes
    ensures r.Ok? ==> r.value == hash(password)
    ensures r.Err? ==> r.error == HttpError(500, "Password cannot exceed 72 bytes")
  {
    if Utf8Length(password) > MaxPasswordBytes then Err(HttpError(500, "Password cannot exceed 72 bytes"))
    else Ok(hash(password))
  }

  /** A password whose characters all take `w` bytes is accepted exactly
      when `w` times its length is at most 72: 72 ASCII characters, 36 such
      as 'é', 24 such as '€' or 18 such as '😀' fill the limit. */
  lemma {:induction false} PasswordLimitBoundary(s: string, w: nat)
    requires forall i :: 0 <= i < |s| ==> Utf8Width(s[i]) == w
    ensures Utf8Length(s) == w * |s|
    ensures GetPasswordHash(s, x => x).Ok? <==> w * |s| <= MaxPasswordBytes
  {
    if s != [] {
      PasswordLimitBoundary(s[1..], w);
      assert w * |s| == w + w * |s[1..]|;
    }
  }

  /** The byte count, not the character count, decides: 36 'é' pass and 37
      fail, 18 '😀' pass and 19 fail, while 72 'a' pass. */
  lemma MultiByteBoundary()
    ensures GetPasswordHash(Repeat('é', 36), x => x).Ok?
    ensures GetPasswordHash(Repeat('é', 37), x => x).Err?
    ensures GetPasswordHash(Repeat('\U{1F600}', 18), x => x).Ok?
    ensures GetPasswordHash(Repeat('\U{1F600}', 19), x => x).Err?
    ensures GetPasswordHash(Repeat('a', 72), x => x).Ok?
  {
    PasswordLimitBoundary(Repeat('é', 36), 2);
    PasswordLimitBoundary(Repeat('é', 37), 2);
    PasswordLimitBoundary(Repeat('\U{1F600}', 18), 4);
    PasswordLimitBoundary(Repeat('\U{1F600}', 19), 4);
    PasswordLimitBoundary(Repeat('a', 72), 1);
  }

  /** `n` copies of `c`. */
  function Repeat(c: char, n: nat): (s: string)
    ensures |s| == n
    ensures forall i :: 0 <= i < n ==> s[i] == c
  {
    if n == 0 then [] else [c] + Repeat(c, n - 1)
  }

  /** `create_access_token`: a copy of `data` overlaid with `user_data`, then
      `exp` set last. A missing or zero `expires_delta` (a zero timedelta is
      falsy) gives fifteen minutes. */
  function CreateAccessToken(data: map<string, Claim>, expiresDelta: Option<int>,
                             userData: map<string, Claim>, now: int): (claims: map<string, Claim>)
    ensures claims.Keys == data.Keys + userData.Keys + {"exp"}
    ensures forall k :: k in userData && k != "exp" ==> claims[k] == userData[k]
    ensures forall k :: k in data && k !in userData && k != "exp" ==> claims[k] == data[k]
    ensures claims["exp"] == Time(now + (if expiresDelta.Some? && expiresDelta.value != 0
                                         then expiresDelta.value else DefaultExpirySeconds))
  {
    var toEncode := if |userData| > 0 then data + userData else data;
    var expire := if expiresDelta.Some? && expiresDelta.value != 0 then now + expiresDelta.value
                  else now + DefaultExpirySeconds;
    toEncode["exp" := Time(expire)]
  }

  /** A supplied `exp` never survives, and a zero delta counts as absent. */
  lemma ExpAlwaysOverridden(data: map<string, Claim>, userData: map<string, Claim>, now: int)
    requires "exp" in data && "exp" in userData
    ensures CreateAccessToken(data, Some(0), userData, now)["exp"] == Time(now + 900)
    ensures CreateAccessToken(data, None, userData, now) == CreateAccessToken(data, Some(0), userData, now)
  {
  }

  /** The first stored user with this email, as `.scalars().first()` finds it. */
  function FindByEmail(users: seq<User>, email: string): (r: Option<nat>)
    ensures r.Some? ==> r.value < |users| && users[r.value].email == email
    ensures r.Some? ==> forall j :: 0 <= j < r.value ==> users[j].email != email
    ensures r.None? ==> forall j :: 0 <= j < |users| ==> users[j].email != email
  {
    if users == [] then None
    else if users[0].email == email then Some(0)
    else
      var rest := FindByEmail(users[1..], email);
      if rest.Some? then Some(rest.value + 1) else None
  }

  const CredentialsError: HttpError := HttpError(401, "Could not validate credentials")

  /** `get_current_user`, given the decoded payload (None when decoding
      fails). The user is looked up by the `sub` claim. */
  function GetCurrentUser(payload: Option<map<string, Claim>>, users: seq<User>): (r: Result<User>)
    ensures r.Err? ==> r.error == CredentialsError
    ensures r.Ok? <==> payload.Some? && "sub" in payload.value && payload.value["sub"].Str?
                       && FindByEmail(users, payload.value["sub"].s).Some?
    ensures r.Ok? ==> r.value.email == payload.value["sub"].s && r.value in users
  {
    if payload.None? || "sub" !in payload.value || !payload.value["sub"].Str? then Err(CredentialsError)
    else
      var found := FindByEmail(users, payload.value["sub"].s);
      if found.None? then Err(CredentialsError) else Ok(users[found.value])
  }

  /** `get_current_active_user`. */
  function GetCurrentActiveUser(u: User): (r: Result<User>)
    ensures r.Ok? <==> u.isActive
    ensures r.Ok? ==> r.value == u
    ensures r.Err? ==> r.error == HttpError(400, "Inactive user")
  {
    if !u.isActive then Err(HttpError(400, "Inactive user")) else Ok(u)
  }

  /** `get_current_active_superuser`, which runs the active check first. */
  function GetCurrentActiveSuperuser(u: User): (r: Result<User>)
    ensures r.Ok? <==> u.isActive && u.isSuperuser
    ensures r.Ok? ==> r.value == u
    ensures !u.isActive ==> r == Err(HttpError(400, "Inactive user"))
    ensures u.isActive && !u.isSuperuser ==>
      r == Err(HttpError(400, "The user doesn't have enough privileges"))
  {
    var active := GetCurrentActiveUser(u);
    if active.Err? then active
    else if !u.isSuperuser then Err(HttpError(400, "The user doesn't have enough privileges"))
    else Ok(u)
  }
}
