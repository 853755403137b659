/** `WhitelistedIpService` (src/whitelisted-ip/whitelisted-ip.service.ts): the table of
    addresses the IP guard admits. Addresses are stored trimmed; a description is stored
    trimmed, and a blank one as null. */
module WhitelistedIps {
  import opened Wrappers
  import opened Text
  import opened Table

  const NULL_IP: string := "Cannot read properties of null (reading 'trim')"

  datatype IpEntry = IpEntry(ip: string, description: Option<string>)
  type WhitelistedIp = Row<IpEntry>

  function NotFoundMessage(id: int): string {
    "Whitelisted IP with id " + IntToString(id) + " not found"
  }

  /** Both keys are acted on whenever present, even when they hold null. */
  datatype UpdateIpDto = UpdateIpDto(ip: Patch<Option<string>>, description: Patch<Option<string>>)

  /** `description?.trim() || null`: the trimmed text, or null when absent or blank. */
  function CleanDescription(d: Option<string>): (r: Option<string>)
    ensures r.None? <==> d.None? || Trim(d.value) == ""
    ensures r.Some? ==> r.value == Trim(d.value) && r.value != ""
  {
    if d.Some? && Trim(d.value) != "" then Some(Trim(d.value)) else None
  }

  /** The entry after an update whose `ip` is not null. */
  function UpdatedEntry(e: IpEntry, dto: UpdateIpDto): IpEntry
    requires dto.ip != Set(None)
  {
    IpEntry(
      if dto.ip.Set? then Trim(dto.ip.value.value) else e.ip,
      if dto.description.Set? then CleanDescription(dto.description.value) else e.description)
  }

  /** Stored addresses and descriptions carry no surrounding white space. */
  predicate Clean(rows: seq<WhitelistedIp>) {
    forall i :: 0 <= i < |rows| ==>
      && Trim(rows[i].data.ip) == rows[i].data.ip
      && (rows[i].data.description.Some? ==>
            rows[i].data.description.value != "" && Trim(rows[i].data.description.value) == rows[i].data.description.value)
  }

  class WhitelistedIpService {
    var rows: seq<WhitelistedIp>
    var nextId: nat

    ghost predicate Valid()
      reads this
    {
      Keyed(rows, nextId) && Clean(rows)
    }

    constructor ()
      ensures Valid() && rows == [] && nextId == 1
    {
      rows := [];
      nextId := 1;
    }

    /** `findAll`: every entry in id order. */
    function FindAll(): (r: seq<WhitelistedIp>)
      reads this
      ensures r == rows
    {
      rows
    }

    /** `create`: the address trimmed and the description cleaned, under the next id. */
    method Create(ip: string, description: Option<string>) returns (r: WhitelistedIp)
      requires Valid()
      modifies this
      ensures Valid()
      ensures r == Row(old(nextId), IpEntry(Trim(ip), CleanDescription(description)))
      ensures rows == old(rows) + [r] && nextId == old(nextId) + 1
    {
      TrimIdempotent(ip);
      if description.Some? { TrimIdempotent(description.value); }
      r := Row(nextId, IpEntry(Trim(ip), CleanDescription(description)));
      Appended(rows, nextId, r.data);
      rows := rows + [r];
      nextId := nextId + 1;
    }

    /** `update`: `NotFound` for an unknown id; a `TypeError` when `ip` is null; otherwise
        the address written trimmed when given and the description written cleaned when
        its key is present. */
    method Update(id: int, dto: UpdateIpDto) returns (r: Result<WhitelistedIp>)
      requires Valid()
      modifies this
      ensures Valid() && nextId == old(nextId)
      ensures r.Err? ==> rows == old(rows)
      ensures IndexOfId(old(rows), id).None? ==> r == Err(NotFound(NotFoundMessage(id)))
      ensures IndexOfId(old(rows), id).Some? ==> (dto.ip == Set(None) <==> r == Err(TypeError(NULL_IP)))
      ensures r.Ok? ==>
        var k := IndexOfId(old(rows), id).value;
        && dto.ip != Set(None)
        && r.value == Row(id, UpdatedEntry(old(rows)[k].data, dto))
        && rows == Replaced(old(rows), k, UpdatedEntry(old(rows)[k].data, dto))
    {
      var k := IndexOfId(rows, id);
      if k.None? {
        return Err(NotFound(NotFoundMessage(id)));
      }
      var entry := rows[k.value].data;
      if dto.ip.Set? {
        if dto.ip.value.None? {
          return Err(TypeError(NULL_IP));
        }
        TrimIdempotent(dto.ip.value.value);
        entry := entry.(ip := Trim(dto.ip.value.value));
      }
      if dto.description.Set? {
        if dto.description.value.Some? { TrimIdempotent(dto.description.value.value); }
        entry := entry.(description := CleanDescription(dto.description.value));
      }
      ReplacedKeyed(rows, nextId, k.value, entry);
      rows := Replaced(rows, k.value, entry);
      r := Ok(rows[k.value]);
    }

    /** `remove`: the row with this id deleted, or `NotFound`. */
    method Remove(id: int) returns (err: Option<Failure>)
      requires Valid()
      modifies this
      ensures Valid() && nextId == old(nextId)
      ensures IndexOfId(old(rows), id).None? ==> err == Some(NotFound(NotFoundMessage(id))) && rows == old(rows)
      ensures IndexOfId(old(rows), id).Some? ==>
        err.None? && rows == Without(old(rows), IndexOfId(old(rows), id).value)
    {
      var k := IndexOfId(rows, id);
      if k.None? {
        return Some(NotFound(NotFoundMessage(id)));
      }
      Removed(rows, nextId, k.value);
      rows := Without(rows, k.value);
      return None;
    }
  }

  /** Cleaning a description twice is cleaning it once. */
  lemma CleanDescriptionIdempotent(d: Option<string>)
    ensures CleanDescription(CleanDescription(d)) == CleanDescription(d)
  {
    if d.Some? { TrimIdempotent(d.value); }
  }

  /** An update repeated with the same input changes nothing more. */
  lemma UpdateIdempotent(e: IpEntry, dto: UpdateIpDto)
    requires dto.ip != Set(None)
    ensures UpdatedEntry(UpdatedEntry(e, dto), dto) == UpdatedEntry(e, dto)
  {
    if dto.ip.Set? { TrimIdempotent(dto.ip.value.value); }
    if dto.description.Set? { CleanDescriptionIdempotent(dto.description.value); }
  }

  /** Keys left out of an update leave their fields as they were. */
  lemma AbsentKeysUnchanged(e: IpEntry, dto: UpdateIpDto)
    requires dto.ip != Set(None)
    ensures dto.ip.Keep? ==> UpdatedEntry(e, dto).ip == e.ip
    ensures dto.description.Keep? ==> UpdatedEntry(e, dto).description == e.description
  {
  }
}
