/** `TrustPositifService` (src/domain/trust-positif/trust-positif.service.ts): the base
    URL and headers, the GET of the form page, the POST of the names, the checks on the
    answer (a 2xx status per section 15.3 of RFC 9110, a `values` array, a row for
    every requested name), and the classification of the rows. The two HTTP requests
    are oracles. */
module TrustPositif {
  import opened Wrappers
  import opened Text
  import opened Js
  import opened DomainModel
  import opened TrustPositifForm

  const HOST: string := "trustpositif.komdigi.go.id"
  const BASE_DEFAULT: string := "https://trustpositif.komdigi.go.id"

  const DEFAULT_HEADERS: map<string, string> := map[
    "User-Agent" := "Mozilla/5.0 (Windows NT 10.0; Win64; x64) AppleWebKit/537.36 (KHTML, like Gecko) Chrome/120.0.0.0 Safari/537.36",
    "Accept" := "text/html,application/xhtml+xml,application/xml;q=0.9,image/webp,*/*;q=0.8",
    "Accept-Language" := "en-US,en;q=0.9,id;q=0.8"]

  /** `baseUrl`: `TRUST_POSITIF_BASE_URL` trimmed, less one final "/", when it is set and
      not blank; the public site otherwise. */
  function BaseUrl(env: Option<string>): (r: string)
    ensures (env.None? || Trim(env.value) == "") ==> r == BASE_DEFAULT
    ensures env.Some? && Trim(env.value) != "" ==>
      (Trim(env.value) == r + "/" || (r == Trim(env.value) && !EndsWith(r, "/")))
  {
    var url := if env.Some? then Trim(env.value) else "";
    if url == "" then BASE_DEFAULT
    else if EndsWith(url, "/") then url[..|url| - 1]
    else url
  }

  /** The Host header is added exactly for an https base that does not name the site,
      such as an IP address. */
  predicate NeedsHost(base: string) {
    StartsWith(base, "https://") && !Contains(base, HOST)
  }

  /** `requestHeaders(extra)`: the defaults, then Host when needed, then the caller's
      headers, each later one overriding the earlier. */
  function RequestHeaders(base: string, extra: map<string, string>): (r: map<string, string>)
    ensures forall k :: k in extra ==> k in r && r[k] == extra[k]
    ensures "Host" !in extra ==> ("Host" in r <==> NeedsHost(base))
    ensures "Host" !in extra && NeedsHost(base) ==> r["Host"] == HOST
    ensures forall k :: k in DEFAULT_HEADERS && k !in extra && k != "Host" ==> k in r && r[k] == DEFAULT_HEADERS[k]
    ensures r.Keys == DEFAULT_HEADERS.Keys + extra.Keys + (if NeedsHost(base) then {"Host"} else {})
  {
    var hostHeader: map<string, string> := if NeedsHost(base) then map["Host" := HOST] else map[];
    DEFAULT_HEADERS + hostHeader + extra
  }

  /** `getCookieHeader`: nothing without a header, the folded pairs otherwise. */
  function ServiceCookieHeader(h: SetCookie): (r: Option<string>)
    ensures r.None? <==> CookieHeaderAbsent(h)
    ensures r.Some? ==> r.value == CookieHeader(h)
  {
    if CookieHeaderAbsent(h) then None else Some(CookieHeader(h))
  }

  datatype GetRequest = GetRequest(url: string, headers: map<string, string>)
  /** The page body as text, and its Set-Cookie header. */
  datatype GetResponse = GetResponse(body: string, setCookie: SetCookie)
  /** A form-encoded POST: the fields in order (their encoding is not modelled). */
  datatype PostRequest = PostRequest(url: string, form: seq<(string, string)>, headers: map<string, string>)
  datatype PostResponse = PostResponse(status: int, data: Value)

  /** The request for the form page. */
  function PageRequest(base: string): GetRequest {
    GetRequest(base + "/", RequestHeaders(base, map[]))
  }

  /** No default or POST header is named "Cookie". */
  lemma CookieHeaderIsNew(base: string, extra: map<string, string>)
    requires extra.Keys == {"Content-Type", "Accept", "Referer"}
    ensures "Cookie" !in RequestHeaders(base, extra)
  {
    assert "Cookie"[0] != "Accept"[0];
    assert "Cookie" !in DEFAULT_HEADERS.Keys;
  }

  /** The POST of the names: the token and the names one per line, JSON asked for, the
      page as referrer, and the cookies only when there are some. */
  function NamesRequest(base: string, token: string, cookie: Option<string>, domains: seq<string>): (r: PostRequest)
    ensures r.url == base + "/Rest_server/getrecordsname_home"
    ensures r.form == [("csrf_token", token), ("name", Join(domains, "\n"))]
    ensures "Cookie" in r.headers <==> cookie.Some? && cookie.value != ""
    ensures "Cookie" in r.headers ==> r.headers["Cookie"] == cookie.value
    ensures "Accept" in r.headers && r.headers["Accept"] == "application/json"
    ensures "Referer" in r.headers && r.headers["Referer"] == base + "/"
    ensures "Content-Type" in r.headers && r.headers["Content-Type"] == "application/x-www-form-urlencoded"
  {
    var extra := map["Content-Type" := "application/x-www-form-urlencoded",
                     "Accept" := "application/json", "Referer" := base + "/"];
    var headers := RequestHeaders(base, extra);
    CookieHeaderIsNew(base, extra);
    var withCookie := if cookie.Some? && cookie.value != "" then headers["Cookie" := cookie.value] else headers;
    PostRequest(base + "/Rest_server/getrecordsname_home",
      [("csrf_token", token), ("name", Join(domains, "\n"))], withCookie)
  }

  const BLOCKED_VALUES: set<string> := {"ada", "blocked", "terblokir", "yes", "1"}
  const NOT_BLOCKED_VALUES: set<string> := {"tidak ada", "allowed", "tidak terblokir", "no", "0", ""}

  /** A row's domain: trimmed, case kept. */
  function RowDomain(row: Value): string {
    RowField(row, "Domain", "domain")
  }

  /** A row's status: trimmed and lower-cased. */
  function RowStatus(row: Value): string {
    Lower(RowField(row, "Status", "status"))
  }

  /** A row's verdict from its domain and its raw status. */
  function Classified(domain: string, raw: string): CheckResult {
    CheckResult(domain, ClassOf(Lower(raw)) == Blocked)
  }

  /** The domain of each row. */
  function RowDomains(values: seq<Value>): (r: seq<string>)
    ensures |r| == |values|
    ensures forall i :: 0 <= i < |values| ==> r[i] == RowDomain(values[i])
  {
    seq(|values|, i requires 0 <= i < |values| => RowDomain(values[i]))
  }

  /** The verdicts for rows with the given domains and raw statuses. */
  function Verdicts(domains: seq<string>, raws: seq<string>): (r: seq<CheckResult>)
    requires |domains| == |raws|
    ensures |r| == |raws|
    ensures forall i :: 0 <= i < |raws| ==> r[i] == Classified(domains[i], raws[i])
  {
    seq(|raws|, i requires 0 <= i < |raws| => Classified(domains[i], raws[i]))
  }

  /** One result per row, in row order. */
  function RowResults(values: seq<Value>): (r: seq<CheckResult>)
    ensures |r| == |values|
  {
    Verdicts(RowDomains(values), RawStatuses(values))
  }

  /** The lower-cased domains the rows name. */
  function ReturnedKeys(values: seq<Value>): set<string> {
    set i | 0 <= i < |values| :: Lower(RowDomain(values[i]))
  }

  /** The requested names, trimmed and lower-cased. */
  function RequestedKeys(domains: seq<string>): set<string> {
    set i | 0 <= i < |domains| :: Lower(Trim(domains[i]))
  }

  /** The non-blank requested keys no row answers. */
  function Missing(domains: seq<string>, values: seq<Value>): (r: set<string>)
    ensures forall k :: k in r <==> k in RequestedKeys(domains) && k != "" && k !in ReturnedKeys(values)
  {
    set k | k in RequestedKeys(domains) && k != "" && k !in ReturnedKeys(values)
  }

  /** The rows of the answer, once every check has passed. */
  function Fetched(domains: seq<string>, env: Option<string>,
                   get: GetRequest -> Result<GetResponse>, post: PostRequest -> Result<PostResponse>)
    : (r: Result<seq<Value>>)
    ensures r.Ok? ==> Missing(domains, r.value) == {}
    ensures r.Ok? ==> forall i :: 0 <= i < |r.value| ==> !Nullish(r.value[i])
  {
    var base := BaseUrl(env);
    var page := get(PageRequest(base));
    if page.Err? then
      Err(Error("Trust Positif website check failed (cannot load page): " + page.error.Message() + ". No fallback."))
    else
      var token := ExtractCsrfToken(page.value.body);
      if token.Err? then Err(token.error)
      else
        var cookie := ServiceCookieHeader(page.value.setCookie);
        var answer := post(NamesRequest(base, token.value, cookie, domains));
        if answer.Err? then
          Err(Error("Trust Positif check failed: " + answer.error.Message()
                    + ". The website check (simulate user entering names) did not complete."))
        else
          Answered(domains, answer.value)
  }

  /** The checks on the POST answer. */
  function Answered(domains: seq<string>, res: PostResponse): (r: Result<seq<Value>>)
    ensures !(200 <= res.status < 300) ==>
      r == Err(Error("Trust Positif returned HTTP " + IntToString(res.status)
                     + ". The website check is not working. No fallback."))
    ensures 200 <= res.status < 300 && !Get(res.data, "values").Arr? ==>
      r == Err(Error(NO_VALUES_MESSAGE))
    ensures r.Ok? ==> (200 <= res.status < 300 && Get(res.data, "values") == Arr(r.value)
      && Missing(domains, r.value) == {}
      && forall i :: 0 <= i < |r.value| ==> !Nullish(r.value[i]))
    ensures 200 <= res.status < 300 && Get(res.data, "values").Arr?
      && (forall i :: 0 <= i < |Get(res.data, "values").items| ==> !Nullish(Get(res.data, "values").items[i]))
      && Missing(domains, Get(res.data, "values").items) != {}
      ==> r == Err(Error(MissingMessage(|Missing(domains, Get(res.data, "values").items)|)))
  {
    if !(200 <= res.status < 300) then
      Err(Error("Trust Positif returned HTTP " + IntToString(res.status)
                + ". The website check is not working. No fallback."))
    else
      var values := Get(res.data, "values");
      if !values.Arr? then Err(Error(NO_VALUES_MESSAGE))
      else if exists i :: 0 <= i < |values.items| && Nullish(values.items[i]) then
        Err(TypeError("Cannot read properties of null (reading 'Domain')"))
      else
        var missing := Missing(domains, values.items);
        if missing != {} then Err(Error(MissingMessage(|missing|)))
        else Ok(values.items)
  }

  const NO_VALUES_MESSAGE: string :=
    "Trust Positif response invalid (no values array). The website check did not return usable data. No fallback."

  function MissingMessage(count: nat): string {
    "Trust Positif did not return results for all requested domains (missing: " + NatToString(count)
      + "). The website check is incomplete. No fallback."
  }

  /** `checkDomains`: nothing to ask, nothing asked; otherwise the checked rows,
      classified. */
  function CheckSpec(domains: seq<string>, env: Option<string>,
                     get: GetRequest -> Result<GetResponse>, post: PostRequest -> Result<PostResponse>)
    : Result<seq<CheckResult>>
  {
    if |domains| == 0 then Ok([])
    else
      var rows := Fetched(domains, env, get, post);
      if rows.Err? then Err(rows.error) else Ok(RowResults(rows.value))
  }

  /** The answer for an empty list does not depend on the site at all. */
  lemma EmptyListAsksNothing(env: Option<string>, get1: GetRequest -> Result<GetResponse>,
                             post1: PostRequest -> Result<PostResponse>,
                             get2: GetRequest -> Result<GetResponse>, post2: PostRequest -> Result<PostResponse>)
    ensures CheckSpec([], env, get1, post1) == CheckSpec([], env, get2, post2) == Ok([])
  {
  }

  /** A successful check has one result per returned row, and every non-blank requested
      name, trimmed and lower-cased, is among the returned domains. */
  lemma CheckComplete(domains: seq<string>, env: Option<string>,
                      get: GetRequest -> Result<GetResponse>, post: PostRequest -> Result<PostResponse>)
    requires |domains| > 0 && CheckSpec(domains, env, get, post).Ok?
    ensures var rows := Fetched(domains, env, get, post).value;
      var rs := CheckSpec(domains, env, get, post).value;
      && |rs| == |rows|
      && (forall i :: 0 <= i < |domains| && Lower(Trim(domains[i])) != "" ==>
            exists j :: 0 <= j < |rs| && Lower(rs[j].domain) == Lower(Trim(domains[i])))
  {
    var rows := Fetched(domains, env, get, post).value;
    var rs := CheckSpec(domains, env, get, post).value;
    forall i | 0 <= i < |domains| && Lower(Trim(domains[i])) != ""
      ensures exists j :: 0 <= j < |rs| && Lower(rs[j].domain) == Lower(Trim(domains[i]))
    {
      var k := Lower(Trim(domains[i]));
      assert k in RequestedKeys(domains);
      assert k in ReturnedKeys(rows);
      var j :| 0 <= j < |rows| && Lower(RowDomain(rows[j])) == k;
      assert rs[j].domain == RowDomain(rows[j]);
    }
  }

  /** How the rows split into blocked, explicitly not blocked and unknown, and the raw
      unknown statuses seen. */
  datatype Tally = Tally(blocked: nat, notBlocked: nat, unknown: nat, unknownStatuses: set<string>)

  /** The trimmed status of each row, case kept. */
  function RawStatuses(values: seq<Value>): (r: seq<string>)
    ensures |r| == |values|
    ensures forall i :: 0 <= i < |values| ==> r[i] == RowField(values[i], "Status", "status")
  {
    seq(|values|, i requires 0 <= i < |values| => RowField(values[i], "Status", "status"))
  }

  datatype StatusClass = Blocked | NotBlocked | Unknown

  /** Which of the two known value sets a lower-cased status belongs to. */
  function ClassOf(status: string): (c: StatusClass)
    ensures c == Blocked <==> status in BLOCKED_VALUES
    ensures c == NotBlocked <==> status in NOT_BLOCKED_VALUES
  {
    if status in BLOCKED_VALUES then Blocked
    else if status in NOT_BLOCKED_VALUES then NotBlocked
    else Unknown
  }

  /** One row's effect on the tally. */
  function Counted(t: Tally, raw: string): Tally {
    match ClassOf(Lower(raw))
    case Blocked => t.(blocked := t.blocked + 1)
    case NotBlocked => t.(notBlocked := t.notBlocked + 1)
    case Unknown =>
      t.(unknown := t.unknown + 1,
         unknownStatuses := if raw != "" then t.unknownStatuses + {raw} else t.unknownStatuses)
  }

  function TallyOf(raws: seq<string>): Tally
  {
    if |raws| == 0 then Tally(0, 0, 0, {})
    else Counted(TallyOf(raws[..|raws| - 1]), raws[|raws| - 1])
  }

  function CountBlocked(rs: seq<CheckResult>): nat {
    if |rs| == 0 then 0 else CountBlocked(rs[..|rs| - 1]) + if rs[|rs| - 1].blocked then 1 else 0
  }

  /** Every status is counted once, the blocked count is the number of blocked results,
      and only unrecognised non-blank statuses are reported as unknown. */
  lemma {:induction false} TallyCounts(raws: seq<string>, rs: seq<CheckResult>)
    requires |raws| == |rs|
    requires forall i :: 0 <= i < |rs| ==> rs[i].blocked == (ClassOf(Lower(raws[i])) == Blocked)
    ensures var t := TallyOf(raws);
      && t.blocked + t.notBlocked + t.unknown == |raws|
      && t.blocked == CountBlocked(rs)
      && (forall s :: s in t.unknownStatuses <==>
            s != "" && s in raws && Lower(s) !in BLOCKED_VALUES && Lower(s) !in NOT_BLOCKED_VALUES)
    decreases |raws|
  {
    if |raws| > 0 {
      var n := |raws| - 1;
      TallyCounts(raws[..n], rs[..n]);
      assert raws == raws[..n] + [raws[n]];
      assert forall s :: s in raws <==> s in raws[..n] || s == raws[n];
    }
  }

  /** The tally of a successful check counts each of its results once. */
  lemma TallyCountsRows(values: seq<Value>)
    ensures var t := TallyOf(RawStatuses(values));
      t.blocked + t.notBlocked + t.unknown == |values| && t.blocked == CountBlocked(RowResults(values))
  {
    TallyCounts(RawStatuses(values), RowResults(values));
  }

  /** The classification loop over the rows' domains and trimmed statuses (the fields
      are read with `RowField`, which has no effects): one result pushed per row, and the
      tallies the service logs. */
  method ClassifyRows(domains: seq<string>, raws: seq<string>) returns (results: seq<CheckResult>, tally: Tally)
    requires |domains| == |raws|
    ensures results == Verdicts(domains, raws)
    ensures tally == TallyOf(raws)
  {
    results := [];
    tally := Tally(0, 0, 0, {});
    var i := 0;
    while i < |raws|
      invariant 0 <= i <= |raws|
      invariant |results| == i
      invariant forall k :: 0 <= k < i ==> results[k] == Classified(domains[k], raws[k])
      invariant tally == TallyOf(raws[..i])
    {
      var rawStatus := raws[i];
      var kind := ClassOf(Lower(rawStatus));
      results := results + [CheckResult(domains[i], kind == Blocked)];
      if kind == Blocked {
        tally := tally.(blocked := tally.blocked + 1);
      } else if kind == NotBlocked {
        tally := tally.(notBlocked := tally.notBlocked + 1);
      } else {
        tally := tally.(unknown := tally.unknown + 1);
        if rawStatus != "" {
          tally := tally.(unknownStatuses := tally.unknownStatuses + {rawStatus});
        }
      }
      assert raws[..i + 1][..i] == raws[..i];
      i := i + 1;
    }
    assert raws[..i] == raws;
  }

  /** `checkDomains` as the service runs it. */
  method CheckDomains(domains: seq<string>, env: Option<string>,
                      get: GetRequest -> Result<GetResponse>, post: PostRequest -> Result<PostResponse>)
    returns (r: Result<seq<CheckResult>>)
    ensures r == CheckSpec(domains, env, get, post)
  {
    if |domains| == 0 {
      return Ok([]);
    }
    var rows := Fetched(domains, env, get, post);
    if rows.Err? {
      return Err(rows.error);
    }
    var results, _ := ClassifyRows(RowDomains(rows.value), RawStatuses(rows.value));
    return Ok(results);
  }
}
