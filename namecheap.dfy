/** `NamecheapService` (src/domain/namecheap/namecheap.service.ts) on the tree the XML
    parser has already produced (attributes as `@_Name` fields, text as `#text`): the
    query parameters of each command, the error-envelope test, and the reading of the
    command responses. The HTTP GET is an oracle from the URL and parameters to the
    parsed tree. */
module Namecheap {
  import opened Wrappers
  import opened Text
  import opened Js
  import opened DomainModel
  import opened NamecheapConfig

  const GET_LIST: string := "namecheap.domains.getList"
  const REACTIVATE: string := "namecheap.domains.reactivate"
  const RENEW: string := "namecheap.domains.renew"
  const GET_INFO: string := "namecheap.domains.getInfo"

  /** The request oracle: base URL and query parameters to the parsed response, or the
      client's error. */
  type Fetch = (string, map<string, string>) -> Result<Value>

  // ---------------------------------------------------------------------------
  // request

  /** The credential parameters, then the command's own, which win on a clash. */
  function RequestParams(creds: Credentials, command: string, extra: map<string, string>): (r: map<string, string>)
    ensures forall k :: k in extra ==> k in r && r[k] == extra[k]
    ensures "ApiUser" !in extra ==> "ApiUser" in r && r["ApiUser"] == creds.apiUser
    ensures "ApiKey" !in extra ==> "ApiKey" in r && r["ApiKey"] == creds.apiKey
    ensures "UserName" !in extra ==> "UserName" in r && r["UserName"] == creds.username
    ensures "Command" !in extra ==> "Command" in r && r["Command"] == command
    ensures "ClientIp" !in extra ==> "ClientIp" in r && r["ClientIp"] == creds.clientIp
    ensures r.Keys == extra.Keys + {"ApiUser", "ApiKey", "UserName", "Command", "ClientIp"}
  {
    map["ApiUser" := creds.apiUser, "ApiKey" := creds.apiKey, "UserName" := creds.username,
        "Command" := command, "ClientIp" := creds.clientIp] + extra
  }

  /** The `Error` elements of the envelope (`ensureArray` once `Error` is not null). */
  function ErrorList(parsed: Value): seq<Value> {
    var error := Get(Get(Get(parsed, "ApiResponse"), "Errors"), "Error");
    if Nullish(error) then [] else EnsureArray(error)
  }

  function Status(parsed: Value): Value {
    Get(Get(parsed, "ApiResponse"), "@_Status")
  }

  /** The envelope reports a failure: an `ERROR` status, or an error with a number. */
  predicate Failed(parsed: Value) {
    var errors := ErrorList(parsed);
    Status(parsed) == Str("ERROR") || exists i :: 0 <= i < |errors| && Truthy(Get(errors[i], "@_Number"))
  }

  /** Each error's text, or its number when the text is empty, dropping empty ones. */
  function ErrorTexts(errors: seq<Value>): (r: seq<Value>)
    ensures |r| <= |errors|
    ensures forall i :: 0 <= i < |r| ==> Truthy(r[i])
  {
    if |errors| == 0 then []
    else
      var e := errors[|errors| - 1];
      var text := Or(Get(e, "#text"), Get(e, "@_Number"));
      ErrorTexts(errors[..|errors| - 1]) + if Truthy(text) then [text] else []
  }

  function Strings(vs: seq<Value>): (r: seq<string>)
    ensures |r| == |vs|
  {
    seq(|vs|, i requires 0 <= i < |vs| => ToString(vs[i]))
  }

  /** The message of a failed envelope: the texts joined with "; ", or the status. */
  function ErrorMessage(parsed: Value): string {
    var joined := Join(Strings(ErrorTexts(ErrorList(parsed))), "; ");
    "Namecheap API error: " + if joined != "" then joined else ToString(Status(parsed))
  }

  /** The envelope test: the command response, or the error it reports. */
  function Envelope(parsed: Value): (r: Result<Value>)
    ensures r.Err? <==> Failed(parsed)
    ensures r.Err? ==> r.error == Error(ErrorMessage(parsed))
    ensures r.Ok? ==> r.value == Get(Get(parsed, "ApiResponse"), "CommandResponse")
  {
    if Failed(parsed) then Err(Error(ErrorMessage(parsed)))
    else Ok(Get(Get(parsed, "ApiResponse"), "CommandResponse"))
  }

  /** A response of status `ERROR` without error elements reports the status itself. */
  lemma StatusOnlyMessage(parsed: Value)
    requires Status(parsed) == Str("ERROR") && ErrorList(parsed) == []
    ensures Envelope(parsed) == Err(Error("Namecheap API error: ERROR"))
  {
    assert Join([], "; ") == "";
  }

  /** An error element without a number does not fail an `OK` envelope. */
  lemma UnnumberedErrorsPass(parsed: Value)
    requires Status(parsed) == Str("OK")
    requires forall i :: 0 <= i < |ErrorList(parsed)| ==> !Truthy(Get(ErrorList(parsed)[i], "@_Number"))
    ensures Envelope(parsed).Ok?
  {
  }

  /** `request`: missing credentials, a client error, or the envelope's verdict. */
  function Request(creds: Result<Credentials>, command: string, extra: map<string, string>, fetch: Fetch)
    : (r: Result<Value>)
    ensures creds.Err? ==> r == Err(creds.error)
    ensures creds.Ok? && fetch(creds.value.baseUrl, RequestParams(creds.value, command, extra)).Ok? ==>
      r == Envelope(fetch(creds.value.baseUrl, RequestParams(creds.value, command, extra)).value)
  {
    if creds.Err? then Err(creds.error)
    else
      var res := fetch(creds.value.baseUrl, RequestParams(creds.value, command, extra));
      if res.Err? then Err(res.error) else Envelope(res.value)
  }

  // ---------------------------------------------------------------------------
  // getList

  datatype ListType = All | Expiring | Expired

  function ListTypeName(t: ListType): string {
    match t
    case All => "ALL"
    case Expiring => "EXPIRING"
    case Expired => "EXPIRED"
  }

  /** The options of `getList`; `None` is an absent option. */
  datatype ListOptions = ListOptions(
    listType: Option<ListType>, page: Option<int>, pageSize: Option<int>,
    sortBy: Option<string>, searchTerm: Option<string>)

  /** Only the options actually given become parameters; an empty sort or search term
      counts as not given. */
  function ListParams(o: ListOptions): (r: map<string, string>)
    ensures "ListType" in r <==> o.listType.Some?
    ensures "Page" in r <==> o.page.Some?
    ensures "PageSize" in r <==> o.pageSize.Some?
    ensures "SortBy" in r <==> o.sortBy.Some? && o.sortBy.value != ""
    ensures "SearchTerm" in r <==> o.searchTerm.Some? && o.searchTerm.value != ""
    ensures o.page.Some? ==> ParseInt(r["Page"]) == Some(o.page.value)
    ensures o.pageSize.Some? ==> ParseInt(r["PageSize"]) == Some(o.pageSize.value)
    ensures r.Keys <= {"ListType", "Page", "PageSize", "SortBy", "SearchTerm"}
  {
    var m0: map<string, string> := map[];
    var m1 := if o.listType.Some? then m0["ListType" := ListTypeName(o.listType.value)] else m0;
    var m2 := if o.page.Some? then m1["Page" := IntToString(o.page.value)] else m1;
    var m3 := if o.pageSize.Some? then m2["PageSize" := IntToString(o.pageSize.value)] else m2;
    var m4 := if o.sortBy.Some? && o.sortBy.value != "" then m3["SortBy" := o.sortBy.value] else m3;
    var m5 := if o.searchTerm.Some? && o.searchTerm.value != "" then m4["SearchTerm" := o.searchTerm.value] else m4;
    ParseIntOfInt(o.page.GetOr(0));
    ParseIntOfInt(o.pageSize.GetOr(0));
    m5
  }

  lemma ParseIntOfInt(i: int)
    ensures ParseInt(IntToString(i)) == Some(i)
  {
    if i >= 0 {
      ParseIntOfNat(i);
    } else {
      var s := NatToString(-i);
      ParseIntOfNat(-i);
      TrimStartIdle(s);
      TrimStartIdle("-" + s);
      assert ("-" + s)[1..] == s;
    }
  }

  /** `r[key] ?? ''` for a string attribute. */
  function StrAttr(d: Value, key: string): string {
    var v := Get(d, key);
    if Nullish(v) then "" else ToString(v)
  }

  /** `(r[key] ?? 'false').toLowerCase() === 'true'` */
  function BoolAttr(d: Value, key: string): (b: bool)
    ensures Nullish(Get(d, key)) ==> !b
    ensures Get(d, key) == Str("true") || Get(d, key) == Str("TRUE") || Get(d, key) == Str("True") ==> b
  {
    Lower(StrAttr(d, key)) == "true"
  }

  /** One list item, normalised. */
  function Item(d: Value): (r: RegistrarItem)
    ensures Nullish(Get(d, "@_ID")) ==> r.id == ""
    ensures Get(d, "@_Name").Str? ==> r.name == Get(d, "@_Name").s
    ensures Get(d, "@_Expires").Str? ==> r.expires == Get(d, "@_Expires").s
    ensures Nullish(Get(d, "@_IsExpired")) ==> !r.isExpired
  {
    RegistrarItem(
      StrAttr(d, "@_ID"), StrAttr(d, "@_Name"), StrAttr(d, "@_User"), StrAttr(d, "@_Created"),
      StrAttr(d, "@_Expires"), BoolAttr(d, "@_IsExpired"), BoolAttr(d, "@_IsLocked"),
      BoolAttr(d, "@_AutoRenew"), StrAttr(d, "@_WhoisGuard"), BoolAttr(d, "@_IsPremium"),
      BoolAttr(d, "@_IsOurDNS"))
  }

  /** The `Domain` nodes: one node or an array of them, none when absent. */
  function DomainNodes(raw: Value): (r: seq<Value>)
    ensures Nullish(Get(Get(raw, "DomainGetListResult"), "Domain")) ==> r == []
  {
    EnsureArray(Coalesce(Get(Get(raw, "DomainGetListResult"), "Domain"), Arr([])))
  }

  function Items(nodes: seq<Value>): (r: seq<RegistrarItem>)
    ensures |r| == |nodes|
    ensures forall i :: 0 <= i < |nodes| ==> r[i] == Item(nodes[i])
  {
    seq(|nodes|, i requires 0 <= i < |nodes| => Item(nodes[i]))
  }

  /** A numeric paging field, or its fallback when the field is empty or absent; `None`
      is `NaN`. */
  function PagingField(paging: Value, key: string, fallback: int): (r: Option<int>)
    ensures !Truthy(Get(paging, key)) ==> r == Some(fallback)
  {
    var v := Get(paging, key);
    if Truthy(v) then ParseInt(ToString(v)) else Some(fallback)
  }

  datatype DomainList = DomainList(
    domains: seq<RegistrarItem>, totalItems: Option<int>, currentPage: Option<int>, pageSize: Option<int>)

  /** The `getList` command response read into items and paging. */
  function ListOf(raw: Value): (r: DomainList)
    ensures r.domains == Items(DomainNodes(raw))
  {
    var domains := Items(DomainNodes(raw));
    var paging := Get(raw, "Paging");
    DomainList(domains,
      PagingField(paging, "TotalItems", |domains|),
      PagingField(paging, "CurrentPage", 1),
      PagingField(paging, "PageSize", |domains|))
  }

  /** Without paging data, the page is taken to be the whole list, page 1. */
  lemma PagingFallback(raw: Value)
    requires !Get(raw, "Paging").Obj?
    ensures var l := ListOf(raw);
      l.totalItems == Some(|l.domains|) && l.pageSize == Some(|l.domains|) && l.currentPage == Some(1)
  {
  }

  /** A single `Domain` node and an array holding just that node give the same list. */
  lemma SingleNodeIsList(raw: Value, rawAsArray: Value, node: Value)
    requires !Nullish(node) && !node.Arr?
    requires Get(Get(raw, "DomainGetListResult"), "Domain") == node
    requires Get(Get(rawAsArray, "DomainGetListResult"), "Domain") == Arr([node])
    ensures ListOf(raw).domains == ListOf(rawAsArray).domains == [Item(node)]
  {
  }

  /** `getList`. */
  function GetList(creds: Result<Credentials>, o: ListOptions, fetch: Fetch): (r: Result<DomainList>)
    ensures r.Ok? <==> Request(creds, GET_LIST, ListParams(o), fetch).Ok?
    ensures r.Ok? ==> r.value == ListOf(Request(creds, GET_LIST, ListParams(o), fetch).value)
  {
    var raw := Request(creds, GET_LIST, ListParams(o), fetch);
    if raw.Err? then Err(raw.error) else Ok(ListOf(raw.value))
  }

  // ---------------------------------------------------------------------------
  // reactivate, renew, getInfo

  /** `reactivate` succeeds when the result node, or the whole response when there is
      none, says `IsSuccess` is exactly "true". */
  function ReactivateSucceeded(raw: Value): (b: bool)
    ensures !Nullish(Get(raw, "DomainReactivateResult")) ==>
      (b <==> (Get(Get(raw, "DomainReactivateResult"), "@_IsSuccess") == Str("true")
               || Get(Get(raw, "DomainReactivateResult"), "IsSuccess") == Str("true")))
    ensures Nullish(Get(raw, "DomainReactivateResult")) ==>
      (b <==> Get(raw, "@_IsSuccess") == Str("true") || Get(raw, "IsSuccess") == Str("true"))
  {
    var result := Coalesce(Get(raw, "DomainReactivateResult"), raw);
    Get(result, "@_IsSuccess") == Str("true") || Get(result, "IsSuccess") == Str("true")
  }

  function Reactivate(creds: Result<Credentials>, domainName: string, fetch: Fetch): (r: Result<bool>)
    ensures r.Ok? <==> Request(creds, REACTIVATE, map["DomainName" := domainName], fetch).Ok?
  {
    var raw := Request(creds, REACTIVATE, map["DomainName" := domainName], fetch);
    if raw.Err? then Err(raw.error) else Ok(ReactivateSucceeded(raw.value))
  }

  /** The options of `renew`; `None` is an absent option. */
  datatype RenewOptions = RenewOptions(isPremiumDomain: Option<bool>, premiumPrice: Option<int>,
                                       promotionCode: Option<string>)

  function BoolText(b: bool): string { if b then "true" else "false" }

  function RenewParams(domainName: string, years: int, o: RenewOptions): (r: map<string, string>)
    ensures "DomainName" in r && r["DomainName"] == domainName
    ensures "Years" in r && ParseInt(r["Years"]) == Some(years)
    ensures "PromotionCode" in r <==> o.promotionCode.Some? && o.promotionCode.value != ""
    ensures "IsPremiumDomain" in r <==> o.isPremiumDomain.Some?
    ensures o.isPremiumDomain.Some? ==> r["IsPremiumDomain"] == BoolText(o.isPremiumDomain.value)
    ensures "PremiumPrice" in r <==> o.premiumPrice.Some?
    ensures r.Keys <= {"DomainName", "Years", "PromotionCode", "IsPremiumDomain", "PremiumPrice"}
  {
    ParseIntOfInt(years);
    var m0 := map["DomainName" := domainName, "Years" := IntToString(years)];
    var m1 := if o.promotionCode.Some? && o.promotionCode.value != "" then m0["PromotionCode" := o.promotionCode.value] else m0;
    var m2 := if o.isPremiumDomain.Some? then m1["IsPremiumDomain" := BoolText(o.isPremiumDomain.value)] else m1;
    if o.premiumPrice.Some? then m2["PremiumPrice" := IntToString(o.premiumPrice.value)] else m2
  }

  const NO_RENEW_RESULT: string := "Namecheap renew: no DomainRenewResult in response"
  const NO_INFO_RESULT: string := "Namecheap getInfo: no DomainGetInfoResult in response"

  /** A command response's result node, which must be present. */
  function ResultNode(raw: Value, key: string, missing: string): (r: Result<Value>)
    ensures r.Ok? <==> Truthy(Get(raw, key))
    ensures r.Ok? ==> r.value == Get(raw, key)
    ensures r.Err? ==> r.error == Error(missing)
  {
    var result := Get(raw, key);
    if Truthy(result) then Ok(result) else Err(Error(missing))
  }

  function Renew(creds: Result<Credentials>, domainName: string, years: int, o: RenewOptions, fetch: Fetch)
    : (r: Result<Value>)
    ensures var raw := Request(creds, RENEW, RenewParams(domainName, years, o), fetch);
      raw.Ok? ==> r == ResultNode(raw.value, "DomainRenewResult", NO_RENEW_RESULT)
  {
    var raw := Request(creds, RENEW, RenewParams(domainName, years, o), fetch);
    if raw.Err? then Err(raw.error) else ResultNode(raw.value, "DomainRenewResult", NO_RENEW_RESULT)
  }

  function InfoParams(domainName: string, hostName: Option<string>): (r: map<string, string>)
    ensures "DomainName" in r && r["DomainName"] == domainName
    ensures "HostName" in r <==> hostName.Some? && hostName.value != ""
    ensures r.Keys <= {"DomainName", "HostName"}
  {
    var m := map["DomainName" := domainName];
    if hostName.Some? && hostName.value != "" then m["HostName" := hostName.value] else m
  }

  function GetInfo(creds: Result<Credentials>, domainName: string, hostName: Option<string>, fetch: Fetch)
    : (r: Result<Value>)
    ensures var raw := Request(creds, GET_INFO, InfoParams(domainName, hostName), fetch);
      raw.Ok? ==> r == ResultNode(raw.value, "DomainGetInfoResult", NO_INFO_RESULT)
  {
    var raw := Request(creds, GET_INFO, InfoParams(domainName, hostName), fetch);
    if raw.Err? then Err(raw.error) else ResultNode(raw.value, "DomainGetInfoResult", NO_INFO_RESULT)
  }
}
