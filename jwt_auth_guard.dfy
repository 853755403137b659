/** `JwtAuthGuard` (src/auth/guards/jwt-auth.guard.ts): public routes pass, development
    attaches a mock superuser, and everything else goes to the passport JWT strategy,
    whose outcome `handleRequest` turns into the request's user or a 401. The strategy
    itself is not modelled. */
module JwtAuthGuard {
  import opened Wrappers
  import opened Accounts
  import RolesGuard

  const TOKEN_EXPIRED: string := "access token is expired"
  const TOKEN_INVALID: string := "access token is invalid"

  /** The user attached in development. */
  const DEV_MOCK_USER: JwtUser := JwtUser(1, "dev", "dev@local", ["superuser"])

  /** The part of the HTTP request the guard writes. */
  class HttpRequest {
    var user: Option<JwtUser>

    constructor (user: Option<JwtUser>)
      ensures this.user == user
    {
      this.user := user;
    }
  }

  /** What `canActivate` answers: admitted now, or handed to the JWT strategy. */
  datatype Decision = Allow | Delegate

  /** `canActivate`: a public route is admitted untouched; in development the mock user
      is attached and the request admitted; otherwise the strategy decides. */
  method CanActivate(isPublic: bool, isDev: bool, req: HttpRequest) returns (d: Decision)
    modifies req
    ensures isPublic ==> d == Allow && req.user == old(req.user)
    ensures !isPublic && isDev ==> d == Allow && req.user == Some(DEV_MOCK_USER)
    ensures !isPublic && !isDev ==> d == Delegate && req.user == old(req.user)
  {
    if isPublic {
      return Allow;
    }
    if isDev {
      req.user := Some(DEV_MOCK_USER);
      return Allow;
    }
    return Delegate;
  }

  /** `handleRequest`: a strategy error is passed on as it is; no user is a 401, "expired"
      when the strategy's info names `TokenExpiredError` and "invalid" otherwise; a user
      is returned unchanged. */
  function HandleRequest(err: Option<Failure>, user: Option<JwtUser>, infoName: Option<string>): (r: Result<JwtUser>)
    ensures err.Some? ==> r == Err(err.value)
    ensures err.None? && user.Some? ==> r == Ok(user.value)
    ensures err.None? && user.None? ==>
      r == Err(Unauthorized([if infoName == Some("TokenExpiredError") then TOKEN_EXPIRED else TOKEN_INVALID]))
  {
    if err.Some? then Err(err.value)
    else if user.None? then
      Err(Unauthorized([if infoName == Some("TokenExpiredError") then TOKEN_EXPIRED else TOKEN_INVALID]))
    else Ok(user.value)
  }

  /** The user attached in development passes the roles guard on every route that
      admits superusers, even where the roles guard itself does not see development. */
  lemma DevUserPassesSuperuserRoutes(required: seq<string>)
    requires "superuser" in required
    ensures RolesGuard.CanActivate(Some(required), false, Some(DEV_MOCK_USER))
  {
  }
}
