/** `NamecheapConfigService` (src/domain/namecheap-config.service.ts): the single
    `namecheap_config` row that holds the registrar credentials, the environment
    fallback, the masked view, and the upsert that keeps the table at one row. */
module NamecheapConfig {
  import opened Wrappers

  const DEFAULT_BASE_URL: string := "https://api.namecheap.com/xml.response"
  const MASK: string := "********"
  const NOT_SET_MESSAGE: string :=
    "Namecheap config not set. Add a row to namecheap_config, use PUT /domains/namecheap-config, or set NAMECHEAP_API_USER, NAMECHEAP_USERNAME, NAMECHEAP_API_KEY, NAMECHEAP_CLIENT_IP in .env."

  /** One stored row; `None` is SQL `NULL`. The timestamps are not modelled. */
  datatype ConfigRow = ConfigRow(
    id: nat, apiUser: string, username: string, password: Option<string>,
    apiKey: string, clientIp: string, baseUrl: Option<string>)

  /** The body of `PUT /domains/namecheap-config`; `None` is an absent or `null` field. */
  datatype ConfigInput = ConfigInput(
    apiUser: string, username: string, password: Option<string>,
    apiKey: string, clientIp: string, baseUrl: Option<string>)

  datatype Credentials = Credentials(
    apiUser: string, username: string, apiKey: string, clientIp: string, baseUrl: string)

  /** The `NAMECHEAP_*` variables; `None` is an unset variable. */
  datatype EnvCredentials = EnvCredentials(
    apiUser: Option<string>, username: Option<string>, apiKey: Option<string>,
    clientIp: Option<string>, baseUrl: Option<string>)

  /** What `GET /domains/namecheap-config` shows. */
  datatype ConfigView = ConfigView(
    id: nat, apiUser: string, username: string, password: Option<string>,
    apiKey: string, clientIp: string, baseUrl: Option<string>)

  /** A set, non-empty variable. */
  predicate Given(v: Option<string>) {
    v.Some? && v.value != ""
  }

  predicate EnvComplete(env: EnvCredentials) {
    Given(env.apiUser) && Given(env.username) && Given(env.apiKey) && Given(env.clientIp)
  }

  /** `getCredentials` over the rows in ascending id order. */
  function CredentialsOf(rows: seq<ConfigRow>, env: EnvCredentials): (r: Result<Credentials>)
    ensures r.Err? <==> |rows| == 0 && !EnvComplete(env)
    ensures r.Err? ==> r.error == NotFound(NOT_SET_MESSAGE)
    ensures |rows| > 0 ==> (
      && r.Ok? && r.value.apiUser == rows[0].apiUser && r.value.username == rows[0].username
      && r.value.apiKey == rows[0].apiKey && r.value.clientIp == rows[0].clientIp
      && (rows[0].baseUrl.Some? ==> r.value.baseUrl == rows[0].baseUrl.value)
      && (rows[0].baseUrl.None? ==> r.value.baseUrl == DEFAULT_BASE_URL))
    ensures |rows| == 0 && r.Ok? ==> (
      && Some(r.value.apiUser) == env.apiUser
      && Some(r.value.username) == env.username && Some(r.value.apiKey) == env.apiKey
      && Some(r.value.clientIp) == env.clientIp && r.value.baseUrl != "")
  {
    if |rows| > 0 then
      var row := rows[0];
      Ok(Credentials(row.apiUser, row.username, row.apiKey, row.clientIp, row.baseUrl.GetOr(DEFAULT_BASE_URL)))
    else if EnvComplete(env) then
      Ok(Credentials(env.apiUser.value, env.username.value, env.apiKey.value, env.clientIp.value,
        if Given(env.baseUrl) then env.baseUrl.value else DEFAULT_BASE_URL))
    else Err(NotFound(NOT_SET_MESSAGE))
  }

  /** `getConfigForDisplay`: the first row with both secrets masked. */
  function DisplayOf(rows: seq<ConfigRow>): (r: Option<ConfigView>)
    ensures r.None? <==> |rows| == 0
    ensures r.Some? ==> (
      && r.value.id == rows[0].id && r.value.clientIp == rows[0].clientIp
      && r.value.baseUrl == rows[0].baseUrl
      && (r.value.password == Some(MASK) <==> Given(rows[0].password))
      && (r.value.apiKey == MASK <==> rows[0].apiKey != ""))
  {
    if |rows| == 0 then None
    else
      var row := rows[0];
      Some(ConfigView(row.id, row.apiUser, row.username,
        if Given(row.password) then Some(MASK) else None,
        if row.apiKey != "" then MASK else "",
        row.clientIp, row.baseUrl))
  }

  /** The view never carries a stored secret: a password is the mask or null, and a key
      is the mask or empty. */
  lemma DisplayHidesSecrets(rows: seq<ConfigRow>)
    ensures var v := DisplayOf(rows);
      v.Some? ==> (
        && (v.value.password == None || v.value.password == Some(MASK))
        && (v.value.apiKey == "" || v.value.apiKey == MASK))
  {
  }

  /** The row an input writes; `id` is the row's key. */
  function RowOf(id: nat, input: ConfigInput): ConfigRow {
    ConfigRow(id, input.apiUser, input.username, input.password, input.apiKey, input.clientIp, input.baseUrl)
  }

  /** `setConfig` on the rows: overwrite the first row in place, or insert one. */
  function Upsert(rows: seq<ConfigRow>, input: ConfigInput, newId: nat): (r: seq<ConfigRow>)
    ensures |r| == if |rows| == 0 then 1 else |rows|
    ensures |rows| > 0 ==> r[0] == RowOf(rows[0].id, input) && r[1..] == rows[1..]
    ensures |rows| == 0 ==> r == [RowOf(newId, input)]
  {
    if |rows| > 0 then [RowOf(rows[0].id, input)] + rows[1..] else [RowOf(newId, input)]
  }

  /** After an upsert the credentials are the ones just written, whatever the
      environment says. */
  lemma UpsertThenCredentials(rows: seq<ConfigRow>, input: ConfigInput, newId: nat, env: EnvCredentials)
    ensures CredentialsOf(Upsert(rows, input, newId), env)
      == Ok(Credentials(input.apiUser, input.username, input.apiKey, input.clientIp,
                        input.baseUrl.GetOr(DEFAULT_BASE_URL)))
  {
  }

  /** Upserting twice with the same input is the same as upserting once. */
  lemma UpsertIdempotent(rows: seq<ConfigRow>, input: ConfigInput, newId: nat, laterId: nat)
    ensures Upsert(Upsert(rows, input, newId), input, laterId) == Upsert(rows, input, newId)
  {
  }

  /** The `namecheap_config` table, rows in ascending id order. */
  class ConfigStore {
    var rows: seq<ConfigRow>
    var nextId: nat

    ghost predicate Valid()
      reads this
    {
      && (forall i, j :: 0 <= i < j < |rows| ==> rows[i].id < rows[j].id)
      && (forall i :: 0 <= i < |rows| ==> rows[i].id < nextId)
    }

    constructor()
      ensures Valid() && rows == []
    {
      rows := [];
      nextId := 1;
    }

    method GetCredentials(env: EnvCredentials) returns (r: Result<Credentials>)
      ensures r == CredentialsOf(rows, env)
    {
      if |rows| > 0 {
        var row := rows[0];
        var baseUrl := if row.baseUrl.Some? then row.baseUrl.value else DEFAULT_BASE_URL;
        return Ok(Credentials(row.apiUser, row.username, row.apiKey, row.clientIp, baseUrl));
      }
      if Given(env.apiUser) && Given(env.username) && Given(env.apiKey) && Given(env.clientIp) {
        var baseUrl := if Given(env.baseUrl) then env.baseUrl.value else DEFAULT_BASE_URL;
        return Ok(Credentials(env.apiUser.value, env.username.value, env.apiKey.value, env.clientIp.value, baseUrl));
      }
      return Err(NotFound(NOT_SET_MESSAGE));
    }

    method GetConfigForDisplay() returns (r: Option<ConfigView>)
      ensures r == DisplayOf(rows)
    {
      if |rows| == 0 {
        return None;
      }
      var row := rows[0];
      var password := if row.password.Some? && row.password.value != "" then Some(MASK) else None;
      var apiKey := if row.apiKey != "" then MASK else "";
      return Some(ConfigView(row.id, row.apiUser, row.username, password, apiKey, row.clientIp, row.baseUrl));
    }

    /** `setConfig`: the first row's fields are overwritten in place, or a row is created;
        the row written is returned. */
    method SetConfig(input: ConfigInput) returns (row: ConfigRow)
      requires Valid()
      modifies this
      ensures Valid()
      ensures rows == Upsert(old(rows), input, old(nextId))
      ensures row == rows[0]
    {
      if |rows| > 0 {
        row := RowOf(rows[0].id, input);
        rows := [row] + rows[1..];
        return;
      }
      row := RowOf(nextId, input);
      rows := [row];
      nextId := nextId + 1;
    }
  }
}
