/** `RolesGuard` (src/auth/guards/roles.guard.ts): a route that names roles admits a user
    holding at least one of them. */
module RolesGuard {
  import opened Wrappers
  import opened Accounts

  /** `canActivate`. `required` is the `@Roles` metadata of the route, `None` when the
      route has none. */
  function CanActivate(required: Option<seq<string>>, isDev: bool, user: Option<JwtUser>): (r: bool)
    ensures required.None? || |required.value| == 0 ==> r
    ensures required.Some? && |required.value| > 0 && isDev ==> r
    ensures required.Some? && |required.value| > 0 && !isDev && (user.None? || |user.value.roles| == 0) ==> !r
    ensures required.Some? && |required.value| > 0 && !isDev && user.Some? ==>
      (r <==> exists role :: role in required.value && role in user.value.roles)
  {
    if required.None? || |required.value| == 0 then true
    else if isDev then true
    else if user.None? || |user.value.roles| == 0 then false
    else exists role :: role in required.value && role in user.value.roles
  }

  /** Outside development, holding more roles never loses access. */
  lemma MoreRolesKeepAccess(required: Option<seq<string>>, a: JwtUser, b: JwtUser)
    requires forall role :: role in a.roles ==> role in b.roles
    requires CanActivate(required, false, Some(a))
    ensures CanActivate(required, false, Some(b))
  {
    if required.Some? && |required.value| > 0 {
      var role :| role in required.value && role in a.roles;
      assert role in b.roles;
    }
  }

  /** The order in which the route lists its roles does not matter. */
  lemma RoleOrderIrrelevant(x: seq<string>, y: seq<string>, isDev: bool, user: Option<JwtUser>)
    requires forall role :: role in x <==> role in y
    ensures CanActivate(Some(x), isDev, user) == CanActivate(Some(y), isDev, user)
  {
    if |x| > 0 { assert x[0] in y; }
    if |y| > 0 { assert y[0] in x; }
  }
}
