/** `CpanelService` (src/cpanel/cpanel.service.ts): cPanel hosting accounts. The three
    credentials are written only with a value; the five descriptive fields whenever their
    key is present, a present null clearing them. */
module Cpanels {
  import opened Wrappers
  import opened Text
  import opened Table

  /** A cPanel row; `domains` is the list of attached domain ids the entity starts with. */
  datatype CpanelEntry = CpanelEntry(
    ipServer: string, username: string, password: string,
    package: Option<string>, mainDomain: Option<string>, email: Option<string>,
    nameServer: Option<string>, status: Option<string>,
    domains: seq<nat>)
  type Cpanel = Row<CpanelEntry>

  function NotFoundMessage(id: int): string {
    "CPanel data with id " + IntToString(id) + " not found"
  }

  datatype CreateCpanelDto = CreateCpanelDto(
    ipServer: string, username: string, password: string,
    package: Option<string>, mainDomain: Option<string>, email: Option<string>,
    nameServer: Option<string>, status: Option<string>)

  /** The credentials are skipped when null or absent (`None`); the other five are
      `Keep` when absent and `Set` when present, holding null as `None`. */
  datatype UpdateCpanelDto = UpdateCpanelDto(
    ipServer: Option<string>, username: Option<string>, password: Option<string>,
    package: Patch<Option<string>>, mainDomain: Patch<Option<string>>, email: Patch<Option<string>>,
    nameServer: Patch<Option<string>>, status: Patch<Option<string>>)

  function CreatedEntry(dto: CreateCpanelDto): CpanelEntry {
    CpanelEntry(dto.ipServer, dto.username, dto.password,
      dto.package, dto.mainDomain, dto.email, dto.nameServer, dto.status, [])
  }

  /** The credentials after `update` (lines 46-48). */
  function WithCredentials(e: CpanelEntry, dto: UpdateCpanelDto): CpanelEntry {
    e.(ipServer := dto.ipServer.GetOr(e.ipServer), username := dto.username.GetOr(e.username),
       password := dto.password.GetOr(e.password))
  }

  /** The descriptive fields after `update` (lines 49-53). */
  function WithDetails(e: CpanelEntry, dto: UpdateCpanelDto): CpanelEntry {
    e.(package := dto.package.GetOr(e.package), mainDomain := dto.mainDomain.GetOr(e.mainDomain),
       email := dto.email.GetOr(e.email), nameServer := dto.nameServer.GetOr(e.nameServer),
       status := dto.status.GetOr(e.status))
  }

  /** The row after `update`. */
  function UpdatedEntry(e: CpanelEntry, dto: UpdateCpanelDto): (r: CpanelEntry)
    ensures r.domains == e.domains
  {
    WithDetails(WithCredentials(e, dto), dto)
  }

  method WriteCredentials(e: CpanelEntry, dto: UpdateCpanelDto) returns (r: CpanelEntry)
    ensures r == WithCredentials(e, dto)
  {
    r := e;
    if dto.ipServer.Some? { r := r.(ipServer := dto.ipServer.value); }
    if dto.username.Some? { r := r.(username := dto.username.value); }
    if dto.password.Some? { r := r.(password := dto.password.value); }
  }

  method WriteDetails(e: CpanelEntry, dto: UpdateCpanelDto) returns (r: CpanelEntry)
    ensures r == WithDetails(e, dto)
  {
    r := e;
    if dto.package.Set? { r := r.(package := dto.package.value); }
    if dto.mainDomain.Set? { r := r.(mainDomain := dto.mainDomain.value); }
    if dto.email.Set? { r := r.(email := dto.email.value); }
    if dto.nameServer.Set? { r := r.(nameServer := dto.nameServer.value); }
    if dto.status.Set? { r := r.(status := dto.status.value); }
  }

  class CpanelService {
    var rows: seq<Cpanel>
    var nextId: nat

    ghost predicate Valid()
      reads this
    {
      Keyed(rows, nextId)
    }

    constructor ()
      ensures Valid() && rows == [] && nextId == 1
    {
      rows := [];
      nextId := 1;
    }

    /** `findAll`: every row in id order. */
    function FindAll(): (r: seq<Cpanel>)
      reads this
      ensures r == rows
    {
      rows
    }

    /** `findOne`: the row with this id, or `NotFound`. */
    function FindOne(id: int): (r: Result<Cpanel>)
      reads this
      ensures r.Err? <==> IndexOfId(rows, id).None?
      ensures r.Err? ==> r.error == NotFound(NotFoundMessage(id))
      ensures r.Ok? ==> r.value.id == id && r.value in rows
    {
      var k := IndexOfId(rows, id);
      if k.None? then Err(NotFound(NotFoundMessage(id))) else Ok(rows[k.value])
    }

    /** `create`: the given fields, null for absent ones and no domains, under the next
        id. */
    method Create(dto: CreateCpanelDto) returns (r: Cpanel)
      requires Valid()
      modifies this
      ensures Valid()
      ensures r == Row(old(nextId), CreatedEntry(dto)) && r.data.domains == []
      ensures rows == old(rows) + [r] && nextId == old(nextId) + 1
    {
      r := Row(nextId, CreatedEntry(dto));
      Appended(rows, nextId, r.data);
      rows := rows + [r];
      nextId := nextId + 1;
    }

    /** `update`: `NotFound` for an unknown id; otherwise the fields written one by one. */
    method Update(id: int, dto: UpdateCpanelDto) returns (r: Result<Cpanel>)
      requires Valid()
      modifies this
      ensures Valid() && nextId == old(nextId)
      ensures IndexOfId(old(rows), id).None? ==> r == Err(NotFound(NotFoundMessage(id))) && rows == old(rows)
      ensures IndexOfId(old(rows), id).Some? ==>
        var k := IndexOfId(old(rows), id).value;
        && rows == Replaced(old(rows), k, UpdatedEntry(old(rows)[k].data, dto))
        && r == Ok(rows[k])
    {
      var k := IndexOfId(rows, id);
      if k.None? {
        return Err(NotFound(NotFoundMessage(id)));
      }
      var e := WriteCredentials(rows[k.value].data, dto);
      e := WriteDetails(e, dto);
      ReplacedKeyed(rows, nextId, k.value, e);
      rows := Replaced(rows, k.value, e);
      r := Ok(rows[k.value]);
    }

    /** `remove`: the row with this id deleted, or `NotFound`. */
    method Remove(id: int) returns (err: Option<Failure>)
      requires Valid()
      modifies this
      ensures Valid() && nextId == old(nextId)
      ensures IndexOfId(old(rows), id).None? ==> err == Some(NotFound(NotFoundMessage(id))) && rows == old(rows)
      ensures IndexOfId(old(rows), id).Some? ==>
        err.None? && rows == Without(old(rows), IndexOfId(old(rows), id).value)
    {
      var k := IndexOfId(rows, id);
      if k.None? {
        return Some(NotFound(NotFoundMessage(id)));
      }
      Removed(rows, nextId, k.value);
      rows := Without(rows, k.value);
      return None;
    }
  }

  /** A credential sent as null or left out keeps its value: the credentials can never be
      cleared through `update`, while a descriptive field sent as null is. */
  lemma CredentialsNeverCleared(e: CpanelEntry, dto: UpdateCpanelDto)
    requires dto.ipServer.None? && dto.username.None? && dto.password.None?
    ensures var r := UpdatedEntry(e, dto);
      r.ipServer == e.ipServer && r.username == e.username && r.password == e.password
    ensures dto.status == Set(None) ==> UpdatedEntry(e, dto).status.None?
  {
  }

  /** An update repeated with the same input changes nothing more. */
  lemma UpdateIdempotent(e: CpanelEntry, dto: UpdateCpanelDto)
    ensures UpdatedEntry(UpdatedEntry(e, dto), dto) == UpdatedEntry(e, dto)
  {
  }

  /** Creating and then updating with every field given yields what creating with those
      values would. */
  lemma UpdateAllFieldsIsCreate(c: CreateCpanelDto, d: CreateCpanelDto)
    ensures UpdatedEntry(CreatedEntry(c), UpdateCpanelDto(
      Some(d.ipServer), Some(d.username), Some(d.password),
      Set(d.package), Set(d.mainDomain), Set(d.email), Set(d.nameServer), Set(d.status))) == CreatedEntry(d)
  {
  }
}
