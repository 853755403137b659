/** The standalone fetch script (scripts/fetch-trustpositif-data.ts): its own copy of the
    cookie fold and the form POST, the row normalisation without the completeness check
    the service has, and the loop that asks for the used names in batches of 50. The
    database read, the output file and the process exit are not modelled. */
module TrustPositifScript {
  import opened Wrappers
  import opened Text
  import opened Js
  import opened DomainModel
  import opened NawalaMerge
  import opened TrustPositifForm
  import TrustPositif

  const SITE: string := "https://trustpositif.komdigi.go.id"
  const BATCH_SIZE: nat := 50

  /** The script's `getCookieHeader`: the empty string, not `undefined`, without a header. */
  function ScriptCookieHeader(h: SetCookie): (r: string)
    ensures CookieHeaderAbsent(h) ==> r == ""
    ensures !CookieHeaderAbsent(h) ==> r == CookieHeader(h)
  {
    if CookieHeaderAbsent(h) then "" else CookieHeader(h)
  }

  /** It folds the cookies exactly as the service does; only the absent case is spelt
      differently. */
  lemma CookieHeadersAgree(h: SetCookie)
    ensures ScriptCookieHeader(h) == TrustPositif.ServiceCookieHeader(h).GetOr("")
  {
  }

  /** The GET of the form page: the three browser headers, no Host header. */
  function PageRequest(): TrustPositif.GetRequest {
    TrustPositif.GetRequest(SITE + "/", TrustPositif.DEFAULT_HEADERS)
  }

  /** The POST of one batch; the cookies are sent only when there are some. */
  function NamesRequest(token: string, cookie: string, names: seq<string>): (r: TrustPositif.PostRequest)
    ensures r.form == [("csrf_token", token), ("name", Join(names, "\n"))]
    ensures "Cookie" in r.headers <==> cookie != ""
    ensures "Cookie" in r.headers ==> r.headers["Cookie"] == cookie
    ensures "Host" !in r.headers && "Accept-Language" !in r.headers
  {
    var headers := map[
      "User-Agent" := TrustPositif.DEFAULT_HEADERS["User-Agent"],
      "Content-Type" := "application/x-www-form-urlencoded",
      "Accept" := "application/json",
      "Referer" := SITE + "/"];
    var withCookie := if cookie != "" then headers["Cookie" := cookie] else headers;
    TrustPositif.PostRequest(SITE + "/Rest_server/getrecordsname_home",
      [("csrf_token", token), ("name", Join(names, "\n"))], withCookie)
  }

  /** One returned row as the script writes it: both fields trimmed, case kept. */
  datatype Row = Row(domain: string, status: string)

  function Normalised(values: seq<Value>): (r: seq<Row>)
    ensures |r| == |values|
    ensures forall i :: 0 <= i < |values| ==>
      r[i] == Row(RowField(values[i], "Domain", "domain"), RowField(values[i], "Status", "status"))
  {
    seq(|values|, i requires 0 <= i < |values| =>
      Row(RowField(values[i], "Domain", "domain"), RowField(values[i], "Status", "status")))
  }

  const NO_VALUES_MESSAGE: string := "Trust Positif response invalid (no values array)"

  /** The checks on the POST answer: a 2xx status and a `values` array; a null row
      fails when its field is read. Missing names are not checked. */
  function Answered(res: TrustPositif.PostResponse): (r: Result<seq<Row>>)
    ensures !(200 <= res.status < 300) ==>
      r == Err(Error("Trust Positif returned HTTP " + IntToString(res.status)))
    ensures 200 <= res.status < 300 && !Get(res.data, "values").Arr? ==> r == Err(Error(NO_VALUES_MESSAGE))
    ensures r.Ok? <==> (200 <= res.status < 300 && Get(res.data, "values").Arr?
      && forall i :: 0 <= i < |Get(res.data, "values").items| ==> !Nullish(Get(res.data, "values").items[i]))
    ensures r.Ok? ==> r.value == Normalised(Get(res.data, "values").items)
  {
    if !(200 <= res.status < 300) then
      Err(Error("Trust Positif returned HTTP " + IntToString(res.status)))
    else
      var values := Get(res.data, "values");
      if !values.Arr? then Err(Error(NO_VALUES_MESSAGE))
      else if exists i :: 0 <= i < |values.items| && Nullish(values.items[i]) then
        Err(TypeError("Cannot read properties of null (reading 'Domain')"))
      else Ok(Normalised(values.items))
  }

  /** Where the service rejects an answer only because requested names are missing, the
      script accepts it, with one row per returned row. */
  lemma ScriptSkipsCompleteness(domains: seq<string>, res: TrustPositif.PostResponse)
    requires 200 <= res.status < 300 && Get(res.data, "values").Arr?
    requires forall i :: 0 <= i < |Get(res.data, "values").items| ==> !Nullish(Get(res.data, "values").items[i])
    requires TrustPositif.Missing(domains, Get(res.data, "values").items) != {}
    ensures TrustPositif.Answered(domains, res).Err?
    ensures Answered(res).Ok? && |Answered(res).value| == |Get(res.data, "values").items|
  {
  }

  /** `fetchTrustPositifForDomains`: a failed request rethrows the client's error. */
  function FetchForDomains(names: seq<string>, get: TrustPositif.GetRequest -> Result<TrustPositif.GetResponse>,
                           post: TrustPositif.PostRequest -> Result<TrustPositif.PostResponse>)
    : (r: Result<seq<Row>>)
    ensures get(PageRequest()).Err? ==> r == Err(get(PageRequest()).error)
    ensures get(PageRequest()).Ok? && ExtractCsrfToken(get(PageRequest()).value.body).Err? ==>
      r == Err(Error(NO_TOKEN_MESSAGE))
  {
    var page := get(PageRequest());
    if page.Err? then Err(page.error)
    else
      var token := ExtractCsrfToken(page.value.body);
      if token.Err? then Err(token.error)
      else
        var answer := post(NamesRequest(token.value, ScriptCookieHeader(page.value.setCookie), names));
        if answer.Err? then Err(answer.error) else Answered(answer.value)
  }

  // ---------------------------------------------------------------------------
  // The batch loop of `main`

  function Min(a: int, b: int): int { if a < b then a else b }

  /** The names cut into consecutive slices of `BATCH_SIZE`. */
  function Batches(names: seq<string>): (r: seq<seq<string>>)
    decreases |names|
  {
    if |names| == 0 then []
    else
      var n := Min(BATCH_SIZE, |names|);
      [names[..n]] + Batches(names[n..])
  }

  function Concat<T>(parts: seq<seq<T>>): seq<T> {
    if |parts| == 0 then [] else parts[0] + Concat(parts[1..])
  }

  /** The batches cover the names in order, every batch is non-empty and holds at most
      `BATCH_SIZE` names, and only the last one may hold fewer. */
  lemma {:induction false} BatchesCover(names: seq<string>)
    ensures Concat(Batches(names)) == names
    ensures forall k :: 0 <= k < |Batches(names)| ==> 0 < |Batches(names)[k]| <= BATCH_SIZE
    ensures forall k :: 0 <= k < |Batches(names)| - 1 ==> |Batches(names)[k]| == BATCH_SIZE
    decreases |names|
  {
    if |names| > 0 {
      var n := Min(BATCH_SIZE, |names|);
      BatchesCover(names[n..]);
      var bs := Batches(names);
      assert bs[1..] == Batches(names[n..]);
      assert names == names[..n] + names[n..];
    }
  }

  /** `xs` followed by the rows of `r`, or the failure of `r`. */
  function Prepend(xs: seq<Row>, r: Result<seq<Row>>): Result<seq<Row>> {
    if r.Err? then r else Ok(xs + r.value)
  }

  /** The rows of a successful fetch. */
  function RowsOf(r: Result<seq<Row>>): seq<Row> {
    if r.Ok? then r.value else []
  }

  /** The batches fetched one after the other; the first failure ends the run. */
  function FetchBatches(bs: seq<seq<string>>, fetch: seq<string> -> Result<seq<Row>>): (r: Result<seq<Row>>)
  {
    if |bs| == 0 then Ok([])
    else
      var first := fetch(bs[0]);
      if first.Err? then Err(first.error) else Prepend(first.value, FetchBatches(bs[1..], fetch))
  }

  /** The run succeeds exactly when every batch does, and then yields every batch's rows
      in batch order. */
  lemma {:induction false} FetchBatchesConcat(bs: seq<seq<string>>, fetch: seq<string> -> Result<seq<Row>>)
    ensures FetchBatches(bs, fetch).Ok? <==> forall k :: 0 <= k < |bs| ==> fetch(bs[k]).Ok?
    ensures FetchBatches(bs, fetch).Ok? ==>
      FetchBatches(bs, fetch).value == Concat(seq(|bs|, k requires 0 <= k < |bs| => RowsOf(fetch(bs[k]))))
  {
    if |bs| > 0 {
      FetchBatchesConcat(bs[1..], fetch);
      var all := seq(|bs|, k requires 0 <= k < |bs| => RowsOf(fetch(bs[k])));
      var rest := seq(|bs| - 1, k requires 0 <= k < |bs| - 1 => RowsOf(fetch(bs[1..][k])));
      assert all[1..] == rest;
      if FetchBatches(bs[1..], fetch).Ok? && fetch(bs[0]).Ok? {
        assert forall k :: 0 <= k < |bs| ==> fetch(bs[k]).Ok? by {
          forall k | 0 < k < |bs| ensures fetch(bs[k]).Ok? {
            assert bs[k] == bs[1..][k - 1];
          }
        }
      }
      if fetch(bs[0]).Ok? && !FetchBatches(bs[1..], fetch).Ok? {
        var k :| 0 <= k < |bs| - 1 && !fetch(bs[1..][k]).Ok?;
        assert bs[1..][k] == bs[k + 1];
      }
    }
  }

  /** The names past position `i`. */
  function From(names: seq<string>, i: nat): seq<string> {
    if i >= |names| then [] else names[i..]
  }

  lemma PrependAssociative(xs: seq<Row>, ys: seq<Row>, r: Result<seq<Row>>)
    ensures Prepend(xs, Prepend(ys, r)) == Prepend(xs + ys, r)
  {
    if r.Ok? {
      assert xs + (ys + r.value) == (xs + ys) + r.value;
    }
  }

  /** `for (i = 0; i < names.length; i += 50)`, pushing each batch's rows into
      `allValues`; a failing batch ends the script. */
  method FetchAll(names: seq<string>, fetch: seq<string> -> Result<seq<Row>>) returns (r: Result<seq<Row>>)
    ensures r == FetchBatches(Batches(names), fetch)
  {
    var allValues: seq<Row> := [];
    var i: nat := 0;
    assert From(names, 0) == names;
    assert FetchBatches(Batches(names), fetch) == Prepend([], FetchBatches(Batches(names), fetch)) by {
      var r := FetchBatches(Batches(names), fetch);
      if r.Ok? {
        assert [] + r.value == r.value;
      }
    }
    while i < |names|
      invariant FetchBatches(Batches(names), fetch) == Prepend(allValues, FetchBatches(Batches(From(names, i)), fetch))
      decreases |names| - i
    {
      var batch := names[i..Min(i + BATCH_SIZE, |names|)];
      assert Batches(From(names, i))[0] == batch;
      assert Batches(From(names, i))[1..] == Batches(From(names, i + BATCH_SIZE)) by {
        assert From(names, i)[Min(BATCH_SIZE, |names| - i)..] == From(names, i + BATCH_SIZE);
      }
      var result := fetch(batch);
      if result.Err? {
        return Err(result.error);
      }
      PrependAssociative(allValues, result.value, FetchBatches(Batches(From(names, i + BATCH_SIZE)), fetch));
      allValues := allValues + result.value;
      i := i + BATCH_SIZE;
    }
    assert Batches(From(names, i)) == [];
    assert allValues + [] == allValues;
    return Ok(allValues);
  }

  /** What `main` writes: a note that nothing is used, or the rows and the number of
      names asked about. */
  datatype Output = NoUsedDomains | Output(values: seq<Row>, totalDomains: nat)

  /** `main`, after the database read. */
  method Run(rows: seq<Domain>, get: TrustPositif.GetRequest -> Result<TrustPositif.GetResponse>,
             post: TrustPositif.PostRequest -> Result<TrustPositif.PostResponse>)
    returns (r: Result<Output>)
    ensures |UsedNames(rows)| == 0 ==> r == Ok(NoUsedDomains)
    ensures |UsedNames(rows)| > 0 ==>
      var all := FetchBatches(Batches(UsedNames(rows)), names => FetchForDomains(names, get, post));
      r == if all.Err? then Err(all.error) else Ok(Output(all.value, |UsedNames(rows)|))
  {
    var names := UsedNames(rows);
    if |names| == 0 {
      return Ok(NoUsedDomains);
    }
    var all := FetchAll(names, names => FetchForDomains(names, get, post));
    if all.Err? {
      return Err(all.error);
    }
    return Ok(Output(all.value, |names|));
  }
}
