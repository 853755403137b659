/** `WordPressController` (src/wordpress/wordpress.controller.ts): the list and detail
    answers hide stored passwords from every caller but a superuser; create, update and
    delete answer with the service's rows as they are. */
module WordPressController {
  import opened Wrappers
  import opened Table
  import opened Accounts
  import opened WordPress

  const PASSWORD_CENSOR: string := "***"

  /** `user?.roles?.includes('superuser')`, absent user counting as false. */
  predicate IsSuperuser(user: Option<JwtUser>) {
    user.Some? && "superuser" in user.value.roles
  }

  /** `censorPasswordIfNeeded`: the item itself for a superuser or an empty password,
      otherwise a copy whose password is the censor mark. */
  function CensorPasswordIfNeeded(item: Site, isSuperuser: bool): (r: Site)
    ensures isSuperuser || item.data.password == "" ==> r == item
    ensures !isSuperuser && item.data.password != "" ==>
      r.id == item.id && r.data.domain == item.data.domain && r.data.username == item.data.username
      && r.data.password == PASSWORD_CENSOR
  {
    if isSuperuser || item.data.password == "" then item
    else Row(item.id, item.data.(password := PASSWORD_CENSOR))
  }

  /** `findAll`: the service's rows, each censored for a caller who is not a superuser. */
  function FindAll(list: seq<Site>, user: Option<JwtUser>): (r: seq<Site>)
    ensures |r| == |list|
    ensures forall i :: 0 <= i < |r| ==> r[i] == CensorPasswordIfNeeded(list[i], IsSuperuser(user))
  {
    seq(|list|, i requires 0 <= i < |list| => CensorPasswordIfNeeded(list[i], IsSuperuser(user)))
  }

  /** `findOne`: the service's answer, censored the same way; `NotFound` passes through. */
  function FindOne(found: Result<Site>, user: Option<JwtUser>): (r: Result<Site>)
    ensures found.Err? ==> r == found
    ensures found.Ok? ==> r == Ok(CensorPasswordIfNeeded(found.value, IsSuperuser(user)))
  {
    if found.Err? then found else Ok(CensorPasswordIfNeeded(found.value, IsSuperuser(user)))
  }

  /** Censoring is idempotent. */
  lemma CensorIdempotent(item: Site, su: bool)
    ensures CensorPasswordIfNeeded(CensorPasswordIfNeeded(item, su), su) == CensorPasswordIfNeeded(item, su)
  {
  }

  /** A caller who is not a superuser never sees a stored non-empty password other than
      the censor mark, whatever it was. */
  lemma NoPasswordLeaks(list: seq<Site>, user: Option<JwtUser>, i: nat)
    requires !IsSuperuser(user) && i < |list|
    ensures FindAll(list, user)[i].data.password in {"", PASSWORD_CENSOR}
  {
  }

  /** Censoring loses only the password: for a superuser, the list is the service's. */
  lemma SuperuserSeesAll(list: seq<Site>, user: Option<JwtUser>)
    requires IsSuperuser(user)
    ensures FindAll(list, user) == list
  {
  }
}
