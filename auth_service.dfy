/** `AuthService` (src/auth/auth.service.ts): the login and refresh decisions. bcrypt and
    the JWT library are not modelled: the password check, the signer and the verifier are
    parameters, and only what the service decides from their answers is stated. */
module Auth {
  import opened Wrappers
  import opened Text
  import opened Table
  import opened Accounts

  const INVALID_LOGIN: string := "Invalid username or password"
  const REFRESH_INVALID: string := "refresh token is invalid"
  const REFRESH_EXPIRED: string := "refresh token is expired"
  const TOKEN_EXPIRED_ERROR: string := "TokenExpiredError"
  const EXPIRES_IN: nat := 3600

  /** A token's claims; `kind` is the `type` claim, which a token may carry with any
      value. */
  datatype JwtPayload = JwtPayload(sub: int, username: string, kind: string)

  /** What `jwtService.verify` does with a token: its claims, or the name of the error it
      throws. */
  datatype Verified = Verified(payload: JwtPayload) | Rejected(errorName: string)

  /** The configured lifetimes of the two tokens. */
  datatype JwtConfig = JwtConfig(accessExpiry: string, refreshExpiry: string)

  /** `bcrypt.compare(password, hash)` and `jwtService.sign(payload, { expiresIn })`. */
  datatype Crypto = Crypto(compare: (string, string) -> bool, sign: (JwtPayload, string) -> string)

  datatype Tokens = Tokens(accessToken: string, refreshToken: string, expiresIn: nat)
  datatype LoginUser = LoginUser(id: string, username: string, email: string, roles: seq<string>)
  datatype AuthResponse = AuthResponse(tokens: Tokens, user: LoginUser)

  /** `validateUser`: the user under the lower-cased name, when the password matches its
      hash. */
  function ValidateUser(users: seq<User>, username: string, password: string, crypto: Crypto): (r: Option<User>)
    ensures r.Some? <==> exists i :: (0 <= i < |users| && users[i].data.username == Lower(username)
      && UserNamed(users, Lower(username)) == Some(i) && crypto.compare(password, users[i].data.passwordHash))
    ensures r.Some? ==> r.value in users && r.value.data.username == Lower(username)
  {
    var k := UserNamed(users, Lower(username));
    if k.None? then None
    else if crypto.compare(password, users[k.value].data.passwordHash) then Some(users[k.value])
    else None
  }

  /** `signTokens`: an "access" token and a "refresh" token for the user, each signed with
      its own lifetime; `expires_in` is 3600 whatever the configured lifetime. */
  function SignTokens(user: User, crypto: Crypto, cfg: JwtConfig): (r: Tokens)
    ensures r.accessToken == crypto.sign(JwtPayload(user.id, user.data.username, "access"), cfg.accessExpiry)
    ensures r.refreshToken == crypto.sign(JwtPayload(user.id, user.data.username, "refresh"), cfg.refreshExpiry)
    ensures r.expiresIn == EXPIRES_IN
  {
    Tokens(
      crypto.sign(JwtPayload(user.id, user.data.username, "access"), cfg.accessExpiry),
      crypto.sign(JwtPayload(user.id, user.data.username, "refresh"), cfg.refreshExpiry),
      EXPIRES_IN)
  }

  /** `login`: `Unauthorized` exactly when `validateUser` finds nobody; otherwise the
      tokens and the user, its id as a string and its roles by name. */
  function Login(users: seq<User>, roles: seq<Role>, username: string, password: string, crypto: Crypto, cfg: JwtConfig)
    : (r: Result<AuthResponse>)
    ensures r.Err? <==> ValidateUser(users, username, password, crypto).None?
    ensures r.Err? ==> r.error == Unauthorized([INVALID_LOGIN])
    ensures r.Ok? ==>
      var u := ValidateUser(users, username, password, crypto).value;
      && r.value.tokens == SignTokens(u, crypto, cfg)
      && AllDigits(r.value.user.id) && DigitsValue(r.value.user.id) == u.id
      && r.value.user.username == u.data.username && r.value.user.email == u.data.email
      && r.value.user.roles == RoleNames(RolesOf(u.data.roleIds, roles))
  {
    match ValidateUser(users, username, password, crypto)
    case None => Err(Unauthorized([INVALID_LOGIN]))
    case Some(u) =>
      NatToStringValue(u.id);
      Ok(AuthResponse(SignTokens(u, crypto, cfg),
        LoginUser(NatToString(u.id), u.data.username, u.data.email, RoleNames(RolesOf(u.data.roleIds, roles)))))
  }

  /** `refresh`: a token the verifier rejects is "expired" for a `TokenExpiredError` and
      "invalid" otherwise; a token whose type is not "refresh", or whose subject no longer
      exists, is "invalid"; otherwise a new access token for the subject. */
  function Refresh(users: seq<User>, token: string, verify: string -> Verified, crypto: Crypto, cfg: JwtConfig)
    : (r: Result<string>)
    ensures verify(token).Rejected? ==>
      r == Err(Unauthorized([if verify(token).errorName == TOKEN_EXPIRED_ERROR then REFRESH_EXPIRED else REFRESH_INVALID]))
    ensures verify(token).Verified? ==>
      var p := verify(token).payload;
      r.Ok? <==> p.kind == "refresh" && IndexOfId(users, p.sub).Some?
    ensures verify(token).Verified? && r.Err? ==> r.error == Unauthorized([REFRESH_INVALID])
    ensures r.Ok? ==>
      var u := users[IndexOfId(users, verify(token).payload.sub).value];
      r.value == crypto.sign(JwtPayload(u.id, u.data.username, "access"), cfg.accessExpiry)
  {
    match verify(token)
    case Rejected(name) =>
      Err(Unauthorized([if name == TOKEN_EXPIRED_ERROR then REFRESH_EXPIRED else REFRESH_INVALID]))
    case Verified(p) =>
      if p.kind != "refresh" then Err(Unauthorized([REFRESH_INVALID]))
      else match IndexOfId(users, p.sub)
        case None => Err(Unauthorized([REFRESH_INVALID]))
        case Some(k) =>
          Ok(crypto.sign(JwtPayload(users[k].id, users[k].data.username, "access"), cfg.accessExpiry))
  }

  /** The user name is matched without regard to ASCII case. */
  lemma LoginIgnoresCase(users: seq<User>, a: string, b: string, password: string, crypto: Crypto)
    requires Lower(a) == Lower(b)
    ensures ValidateUser(users, a, password, crypto) == ValidateUser(users, b, password, crypto)
  {
  }

  /** A refresh token from a login, read back by a verifier that accepts it, yields a new
      access token for the same user while that user exists. */
  lemma LoginThenRefresh(users: seq<User>, nextId: nat, roles: seq<Role>, username: string, password: string,
                         verify: string -> Verified, crypto: Crypto, cfg: JwtConfig)
    requires Keyed(users, nextId)
    requires Login(users, roles, username, password, crypto, cfg).Ok?
    requires var u := ValidateUser(users, username, password, crypto).value;
      verify(SignTokens(u, crypto, cfg).refreshToken) == Verified(JwtPayload(u.id, u.data.username, "refresh"))
    ensures var u := ValidateUser(users, username, password, crypto).value;
      Refresh(users, Login(users, roles, username, password, crypto, cfg).value.tokens.refreshToken, verify, crypto, cfg)
        == Ok(SignTokens(u, crypto, cfg).accessToken)
  {
    var u := ValidateUser(users, username, password, crypto).value;
    var i :| 0 <= i < |users| && users[i] == u;
    FindsOwnRow(users, nextId, i);
  }

  /** An access token, accepted by the verifier, never refreshes. */
  lemma AccessTokenDoesNotRefresh(users: seq<User>, token: string, p: JwtPayload,
                                  verify: string -> Verified, crypto: Crypto, cfg: JwtConfig)
    requires verify(token) == Verified(p) && p.kind == "access"
    ensures Refresh(users, token, verify, crypto, cfg) == Err(Unauthorized([REFRESH_INVALID]))
  {
  }

  /** A user just added with a fresh name logs in with the password whose hash was
      stored. */
  lemma {:induction false} NewUserLogsIn(users: seq<User>, row: User, username: string, password: string, crypto: Crypto)
    requires !UsernameTaken(users, Lower(username))
    requires row.data.username == Lower(username) && crypto.compare(password, row.data.passwordHash)
    ensures ValidateUser(users + [row], username, password, crypto) == Some(row)
  {
    NamedAtEnd(users, row, Lower(username));
  }

  lemma {:induction false} NamedAtEnd(users: seq<User>, row: User, name: string)
    requires !UsernameTaken(users, name) && row.data.username == name
    ensures UserNamed(users + [row], name) == Some(|users|)
  {
    if |users| > 0 {
      assert (users + [row])[1..] == users[1..] + [row];
      assert !UsernameTaken(users[1..], name) by {
        forall i | 0 <= i < |users| - 1 ensures users[1..][i].data.username != name {
          assert users[1..][i] == users[i + 1];
        }
      }
      NamedAtEnd(users[1..], row, name);
    }
  }
}
