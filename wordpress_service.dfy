/** `WordPressService` (src/wordpress/wordpress.service.ts): WordPress site credentials.
    `update` writes each field only when given a value. */
module WordPress {
  import opened Wrappers
  import opened Text
  import opened Table

  datatype SiteEntry = SiteEntry(domain: string, username: string, password: string)
  type Site = Row<SiteEntry>

  function NotFoundMessage(id: int): string {
    "WordPress data with id " + IntToString(id) + " not found"
  }

  /** Each field is skipped when null or absent (`None`). */
  datatype UpdateSiteDto = UpdateSiteDto(domain: Option<string>, username: Option<string>, password: Option<string>)

  function UpdatedEntry(e: SiteEntry, dto: UpdateSiteDto): SiteEntry {
    SiteEntry(dto.domain.GetOr(e.domain), dto.username.GetOr(e.username), dto.password.GetOr(e.password))
  }

  class WordPressService {
    var rows: seq<Site>
    var nextId: nat

    ghost predicate Valid()
      reads this
    {
      Keyed(rows, nextId)
    }

    constructor ()
      ensures Valid() && rows == [] && nextId == 1
    {
      rows := [];
      nextId := 1;
    }

    /** `findAll`: every row, in ascending id order. */
    function FindAll(): (r: seq<Site>)
      reads this
      requires Valid()
      ensures r == rows
      ensures forall i, j :: 0 <= i < j < |r| ==> r[i].id < r[j].id
    {
      rows
    }

    /** `findOne`: the row with this id, or `NotFound`. */
    function FindOne(id: int): (r: Result<Site>)
      reads this
      ensures r.Err? <==> IndexOfId(rows, id).None?
      ensures r.Err? ==> r.error == NotFound(NotFoundMessage(id))
      ensures r.Ok? ==> r.value.id == id && r.value in rows
    {
      var k := IndexOfId(rows, id);
      if k.None? then Err(NotFound(NotFoundMessage(id))) else Ok(rows[k.value])
    }

    /** `create`: the three fields as given, under the next id. */
    method Create(entry: SiteEntry) returns (r: Site)
      requires Valid()
      modifies this
      ensures Valid()
      ensures r == Row(old(nextId), entry)
      ensures rows == old(rows) + [r] && nextId == old(nextId) + 1
    {
      r := Row(nextId, entry);
      Appended(rows, nextId, entry);
      rows := rows + [r];
      nextId := nextId + 1;
    }

    /** `update`: `NotFound` for an unknown id; otherwise each given field written. */
    method Update(id: int, dto: UpdateSiteDto) returns (r: Result<Site>)
      requires Valid()
      modifies this
      ensures Valid() && nextId == old(nextId)
      ensures IndexOfId(old(rows), id).None? ==> r == Err(NotFound(NotFoundMessage(id))) && rows == old(rows)
      ensures IndexOfId(old(rows), id).Some? ==>
        var k := IndexOfId(old(rows), id).value;
        && rows == Replaced(old(rows), k, UpdatedEntry(old(rows)[k].data, dto))
        && r == Ok(rows[k])
    {
      var k := IndexOfId(rows, id);
      if k.None? {
        return Err(NotFound(NotFoundMessage(id)));
      }
      var e := rows[k.value].data;
      if dto.domain.Some? { e := e.(domain := dto.domain.value); }
      if dto.username.Some? { e := e.(username := dto.username.value); }
      if dto.password.Some? { e := e.(password := dto.password.value); }
      ReplacedKeyed(rows, nextId, k.value, e);
      rows := Replaced(rows, k.value, e);
      r := Ok(rows[k.value]);
    }

    /** `remove`: the row with this id deleted, or `NotFound`. */
    method Remove(id: int) returns (err: Option<Failure>)
      requires Valid()
      modifies this
      ensures Valid() && nextId == old(nextId)
      ensures IndexOfId(old(rows), id).None? ==> err == Some(NotFound(NotFoundMessage(id))) && rows == old(rows)
      ensures IndexOfId(old(rows), id).Some? ==>
        err.None? && rows == Without(old(rows), IndexOfId(old(rows), id).value)
    {
      var k := IndexOfId(rows, id);
      if k.None? {
        return Some(NotFound(NotFoundMessage(id)));
      }
      Removed(rows, nextId, k.value);
      rows := Without(rows, k.value);
      return None;
    }
  }

  /** An update repeated with the same input changes nothing more; one with no values
      changes nothing at all. */
  lemma UpdateIdempotent(e: SiteEntry, dto: UpdateSiteDto)
    ensures UpdatedEntry(UpdatedEntry(e, dto), dto) == UpdatedEntry(e, dto)
    ensures UpdatedEntry(e, UpdateSiteDto(None, None, None)) == e
  {
  }
}
