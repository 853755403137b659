/** `DomainGroupService` (src/domain/domain-group.service.ts): named groups of domains,
    listed by name. The response shape is `DomainModel.GroupInfo`. */
module DomainGroups {
  import opened Wrappers
  import opened Text
  import opened Table
  import opened DomainModel
  import opened DomainOrder

  datatype GroupData = GroupData(name: string, description: Option<string>)
  type Group = Row<GroupData>

  function NotFoundMessage(id: int): string {
    "Group dengan id " + IntToString(id) + " tidak ditemukan"
  }

  datatype CreateGroupDto = CreateGroupDto(name: string, description: Option<string>)

  /** Each key is written whenever it is present; a present null description is stored
      as null. */
  datatype UpdateGroupDto = UpdateGroupDto(name: Patch<string>, description: Patch<Option<string>>)

  function GroupResponse(g: Group): GroupInfo {
    GroupInfo(g.id, g.data.name, g.data.description)
  }

  function UpdatedGroup(g: GroupData, dto: UpdateGroupDto): GroupData {
    GroupData(
      if dto.name.Set? then dto.name.value else g.name,
      if dto.description.Set? then dto.description.value else g.description)
  }

  /** `ORDER BY name ASC`, by code point; equal names keep their id order. */
  predicate NameLe(a: Group, b: Group) {
    StrCompare(a.data.name, b.data.name) <= 0
  }

  predicate SortedByName(s: seq<Group>) {
    forall i :: 0 <= i < |s| - 1 ==> NameLe(s[i], s[i + 1])
  }

  function InsertByName(x: Group, s: seq<Group>): (r: seq<Group>)
    requires SortedByName(s)
    ensures multiset(r) == multiset(s) + multiset{x}
    ensures r[0] == x || (|s| > 0 && r[0] == s[0])
    ensures SortedByName(r)
  {
    if |s| == 0 then [x]
    else if NameLe(x, s[0]) then [x] + s
    else
      StrCompareAntisymmetric(x.data.name, s[0].data.name);
      assert s == [s[0]] + s[1..];
      [s[0]] + InsertByName(x, s[1..])
  }

  function SortByName(s: seq<Group>): (r: seq<Group>)
    ensures multiset(r) == multiset(s)
    ensures SortedByName(r)
  {
    if |s| == 0 then []
    else
      assert s == [s[0]] + s[1..];
      InsertByName(s[0], SortByName(s[1..]))
  }

  function Responses(s: seq<Group>): (r: seq<GroupInfo>)
    ensures |r| == |s| && forall i :: 0 <= i < |s| ==> r[i] == GroupResponse(s[i])
  {
    if |s| == 0 then [] else [GroupResponse(s[0])] + Responses(s[1..])
  }

  /** The listing holds each group once, in name order. */
  lemma {:induction false} SortedListing(groups: seq<Group>)
    ensures var r := Responses(SortByName(groups));
      && |r| == |groups|
      && (forall i :: 0 <= i < |r| - 1 ==> StrCompare(r[i].name, r[i + 1].name) <= 0)
      && (forall g :: g in groups <==> GroupResponse(g) in r)
  {
    var sorted := SortByName(groups);
    var r := Responses(sorted);
    assert |sorted| == |multiset(sorted)| == |multiset(groups)| == |groups|;
    forall g
      ensures g in groups <==> GroupResponse(g) in r
    {
      assert g in groups <==> g in multiset(sorted);
      if GroupResponse(g) in r {
        var i :| 0 <= i < |r| && r[i] == GroupResponse(g);
        assert sorted[i] == g;
      }
    }
  }

  class DomainGroupService {
    var groups: seq<Group>
    var nextId: nat

    ghost predicate Valid()
      reads this
    {
      Keyed(groups, nextId)
    }

    constructor ()
      ensures Valid() && groups == [] && nextId == 1
    {
      groups := [];
      nextId := 1;
    }

    /** `findAll`: every group, in ascending name order. */
    function FindAll(): (r: seq<GroupInfo>)
      reads this
      ensures |r| == |groups|
      ensures forall i :: 0 <= i < |r| - 1 ==> StrCompare(r[i].name, r[i + 1].name) <= 0
      ensures forall g :: g in groups <==> GroupResponse(g) in r
    {
      SortedListing(groups);
      Responses(SortByName(groups))
    }

    /** `findOne`: the group with this id, or `NotFound`. */
    function FindOne(id: int): (r: Result<GroupInfo>)
      reads this
      ensures r.Err? <==> IndexOfId(groups, id).None?
      ensures r.Err? ==> r.error == NotFound(NotFoundMessage(id))
      ensures r.Ok? ==> r.value.id == id && r.value == GroupResponse(groups[IndexOfId(groups, id).value])
    {
      var k := IndexOfId(groups, id);
      if k.None? then Err(NotFound(NotFoundMessage(id))) else Ok(GroupResponse(groups[k.value]))
    }

    /** `create`: the name as given and the description or null, under the next id. */
    method Create(dto: CreateGroupDto) returns (r: GroupInfo)
      requires Valid()
      modifies this
      ensures Valid()
      ensures r == GroupInfo(old(nextId), dto.name, dto.description)
      ensures groups == old(groups) + [Row(old(nextId), GroupData(dto.name, dto.description))]
      ensures nextId == old(nextId) + 1
    {
      var g := Row(nextId, GroupData(dto.name, dto.description));
      Appended(groups, nextId, g.data);
      groups := groups + [g];
      nextId := nextId + 1;
      r := GroupResponse(g);
    }

    /** `update`: `NotFound` for an unknown id; otherwise each present key written. */
    method Update(id: int, dto: UpdateGroupDto) returns (r: Result<GroupInfo>)
      requires Valid()
      modifies this
      ensures Valid() && nextId == old(nextId)
      ensures IndexOfId(old(groups), id).None? ==> r == Err(NotFound(NotFoundMessage(id))) && groups == old(groups)
      ensures IndexOfId(old(groups), id).Some? ==>
        var k := IndexOfId(old(groups), id).value;
        && groups == Replaced(old(groups), k, UpdatedGroup(old(groups)[k].data, dto))
        && r == Ok(GroupResponse(groups[k]))
    {
      var k := IndexOfId(groups, id);
      if k.None? {
        return Err(NotFound(NotFoundMessage(id)));
      }
      var g := groups[k.value].data;
      if dto.name.Set? {
        g := g.(name := dto.name.value);
      }
      if dto.description.Set? {
        g := g.(description := dto.description.value);
      }
      ReplacedKeyed(groups, nextId, k.value, g);
      groups := Replaced(groups, k.value, g);
      r := Ok(GroupResponse(groups[k.value]));
    }

    /** `remove`: the row with this id deleted, or `NotFound`. */
    method Remove(id: int) returns (err: Option<Failure>)
      requires Valid()
      modifies this
      ensures Valid() && nextId == old(nextId)
      ensures IndexOfId(old(groups), id).None? ==> err == Some(NotFound(NotFoundMessage(id))) && groups == old(groups)
      ensures IndexOfId(old(groups), id).Some? ==>
        err.None? && groups == Without(old(groups), IndexOfId(old(groups), id).value)
    {
      var k := IndexOfId(groups, id);
      if k.None? {
        return Some(NotFound(NotFoundMessage(id)));
      }
      Removed(groups, nextId, k.value);
      groups := Without(groups, k.value);
      return None;
    }
  }

  /** An update repeated with the same input changes nothing more; one with no keys
      changes nothing at all. */
  lemma UpdateIdempotent(g: GroupData, dto: UpdateGroupDto)
    ensures UpdatedGroup(UpdatedGroup(g, dto), dto) == UpdatedGroup(g, dto)
    ensures UpdatedGroup(g, UpdateGroupDto(Keep, Keep)) == g
  {
  }
}
