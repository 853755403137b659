/** `IpWhitelistGuard` (src/auth/guards/ip-whitelist.guard.ts): outside development, a
    route not marked to skip the check admits a request only from an address in the
    whitelist table. The client address comes from the proxy headers first. */
module IpWhitelistGuard {
  import opened Wrappers
  import opened Text
  import opened Table
  import opened WhitelistedIps

  const NO_CLIENT_IP: string := "client IP could not be determined"

  /** A header as Node hands it over: one string, or a list of them. */
  datatype HeaderValue = One(value: string) | Many(values: seq<string>)

  /** The request as the guard reads it: `request.ip` and the lower-cased header map. */
  datatype Request = Request(ip: Option<string>, headers: map<string, HeaderValue>)

  /** A header value is truthy unless it is the empty string; a list always is. */
  predicate Truthy(h: map<string, HeaderValue>, name: string) {
    name in h && (h[name].Many? || h[name].value != "")
  }

  /** The first element of a list header, or the one string; `None` for an empty list. */
  function First(v: HeaderValue): Option<string> {
    match v
    case One(s) => Some(s)
    case Many(vs) => if |vs| == 0 then None else Some(vs[0])
  }

  /** `getClientIp`. Its declared type is string, but an empty `x-real-ip` list makes it
      return `undefined`, which is `None` here. */
  function GetClientIp(req: Request): (r: Option<string>)
    ensures Truthy(req.headers, "x-forwarded-for") ==>
      r == Some(match First(req.headers["x-forwarded-for"])
                case None => ""
                case Some(f) => Trim(BeforeFirst(f, ',')))
    ensures !Truthy(req.headers, "x-forwarded-for") && Truthy(req.headers, "x-real-ip") ==>
      r == First(req.headers["x-real-ip"])
    ensures !Truthy(req.headers, "x-forwarded-for") && !Truthy(req.headers, "x-real-ip") ==>
      r == Some(req.ip.GetOr(""))
  {
    if Truthy(req.headers, "x-forwarded-for") then
      match First(req.headers["x-forwarded-for"])
      case None => Some("")
      case Some(f) => Some(Trim(BeforeFirst(f, ',')))
    else if Truthy(req.headers, "x-real-ip") then First(req.headers["x-real-ip"])
    else Some(req.ip.GetOr(""))
  }

  /** `whitelistedIpRepo.findOne({ ip })`: an exact, case-sensitive match. */
  predicate Whitelisted(rows: seq<WhitelistedIp>, ip: string) {
    exists i :: 0 <= i < |rows| && rows[i].data.ip == ip
  }

  function NotWhitelistedMessage(ip: string): string {
    "IP " + ip + " is not whitelisted"
  }

  /** `canActivate`: development and the skip marker admit without a lookup; then an
      empty address is refused, and a non-empty one is admitted iff it is whitelisted. */
  function CanActivate(isDev: bool, skip: bool, req: Request, rows: seq<WhitelistedIp>): (r: Result<bool>)
    ensures r.Ok? ==> r.value
    ensures isDev || skip ==> r.Ok?
    ensures !isDev && !skip ==>
      var ip := GetClientIp(req);
      && (ip.None? || ip.value == "" <==> r == Err(Unauthorized([NO_CLIENT_IP])))
      && (ip.Some? && ip.value != "" ==>
            (r.Ok? <==> Whitelisted(rows, ip.value))
            && (r.Err? ==> r.error == Unauthorized([NotWhitelistedMessage(ip.value)])))
  {
    if isDev || skip then Ok(true)
    else
      var ip := GetClientIp(req);
      if ip.None? || ip.value == "" then Err(Unauthorized([NO_CLIENT_IP]))
      else if Whitelisted(rows, ip.value) then Ok(true)
      else
        assert |NotWhitelistedMessage(ip.value)| > |NO_CLIENT_IP| || NotWhitelistedMessage(ip.value)[0] != NO_CLIENT_IP[0];
        Err(Unauthorized([NotWhitelistedMessage(ip.value)]))
  }

  /** An address taken from `x-forwarded-for` is one hop: it holds no comma and no
      surrounding white space. */
  lemma ForwardedAddressIsOneHop(req: Request)
    requires Truthy(req.headers, "x-forwarded-for")
    ensures ',' !in GetClientIp(req).value
    ensures Trim(GetClientIp(req).value) == GetClientIp(req).value
  {
    match First(req.headers["x-forwarded-for"])
    case None =>
    case Some(f) =>
      var b := BeforeFirst(f, ',');
      TrimShape(b);
      TrimIdempotent(b);
      var i := |b| - |TrimStart(b)|;
      assert forall k :: 0 <= k < |Trim(b)| ==> Trim(b)[k] == b[i + k];
  }

  /** The proxy header decides alone: with the same `x-forwarded-for`, the other header
      and the socket address make no difference. */
  lemma ForwardedWins(a: Request, b: Request)
    requires Truthy(a.headers, "x-forwarded-for")
    requires "x-forwarded-for" in b.headers && b.headers["x-forwarded-for"] == a.headers["x-forwarded-for"]
    ensures GetClientIp(a) == GetClientIp(b)
  {
  }

  /** A request arriving straight from an address that was added to the whitelist is
      admitted. */
  lemma CreatedAddressAdmitted(rows: seq<WhitelistedIp>, k: nat, isDev: bool, skip: bool, req: Request)
    requires k < |rows| && rows[k].data.ip != ""
    requires req.headers == map[] && req.ip == Some(rows[k].data.ip)
    ensures CanActivate(isDev, skip, req, rows) == Ok(true)
  {
  }
}
