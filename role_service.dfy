/** `RoleService` (src/role/role.service.ts): the role table with lower-cased, unique
    names. `findOne` with `withUsers` also lists the users holding the role, read from
    the user table passed in. */
module Roles {
  import opened Wrappers
  import opened Text
  import opened Table
  import opened Accounts

  const NAME_TAKEN: string := "Role name already exists"

  function NotFoundMessage(id: int): string {
    "Role with id " + IntToString(id) + " not found"
  }

  datatype UserSummary = UserSummary(id: nat, username: string, email: string)

  /** The two answers of `findOne`: `{ id, name }`, or `RoleWithUsersResponse`. */
  datatype RoleAnswer = Plain(role: RoleView) | WithUsers(id: nat, name: string, users: seq<UserSummary>)

  /** The users linked to role `id`, in user-id order. */
  function Holders(id: nat, users: seq<User>): (r: seq<UserSummary>)
    ensures |r| <= |users|
    ensures forall s :: s in r <==> exists i :: (0 <= i < |users| && id in users[i].data.roleIds
      && s == UserSummary(users[i].id, users[i].data.username, users[i].data.email))
  {
    if |users| == 0 then []
    else
      var rest := Holders(id, users[1..]);
      assert forall i :: 0 <= i < |users| - 1 ==> users[1..][i] == users[i + 1];
      if id in users[0].data.roleIds
      then [UserSummary(users[0].id, users[0].data.username, users[0].data.email)] + rest
      else rest
  }

  /** Role names are stored lower-cased. */
  predicate Lowered(roles: seq<Role>) {
    forall i :: 0 <= i < |roles| ==> Lower(roles[i].data.name) == roles[i].data.name
  }

  function View(role: Role): RoleView {
    RoleView(role.id, role.data.name)
  }

  class RoleService {
    var roles: seq<Role>
    var nextId: nat

    /** Ids are keyed, names unique and lower-cased. */
    ghost predicate Valid()
      reads this
    {
      Keyed(roles, nextId) && UniqueRoleNames(roles) && Lowered(roles)
    }

    constructor ()
      ensures Valid() && roles == [] && nextId == 1
    {
      roles := [];
      nextId := 1;
    }

    /** `findAll`: `{ id, name }` of every role in id order. */
    function FindAll(): (r: seq<RoleView>)
      reads this
      ensures |r| == |roles|
      ensures forall i :: 0 <= i < |r| ==> r[i].id == roles[i].id && r[i].name == roles[i].data.name
    {
      seq(|roles|, i requires 0 <= i < |roles| reads this => View(roles[i]))
    }

    /** `findOne`: `NotFound` for an unknown id; otherwise `{ id, name }`, or with
        `withUsers` also each holder's id, user name and e-mail. */
    function FindOne(id: int, withUsers: bool, users: seq<User>): (r: Result<RoleAnswer>)
      reads this
      ensures r.Err? <==> IndexOfId(roles, id).None?
      ensures r.Err? ==> r.error == NotFound(NotFoundMessage(id))
      ensures r.Ok? ==> (r.value.WithUsers? <==> withUsers)
      ensures r.Ok? && !withUsers ==> r.value == Plain(RoleView(id, roles[IndexOfId(roles, id).value].data.name))
      ensures r.Ok? && withUsers ==>
        && r.value.id == id && r.value.name == roles[IndexOfId(roles, id).value].data.name
        && forall s :: s in r.value.users <==> exists i :: (0 <= i < |users| && id in users[i].data.roleIds
             && s == UserSummary(users[i].id, users[i].data.username, users[i].data.email))
    {
      var k := IndexOfId(roles, id);
      if k.None? then Err(NotFound(NotFoundMessage(id)))
      else if withUsers then Ok(WithUsers(roles[k.value].id, roles[k.value].data.name, Holders(roles[k.value].id, users)))
      else Ok(Plain(View(roles[k.value])))
    }

    /** `create`: the lower-cased name stored under the next id, unless a role already
        has it. */
    method Create(name: string) returns (r: Result<RoleView>)
      requires Valid()
      modifies this
      ensures Valid()
      ensures RoleNameTaken(old(roles), Lower(name)) ==>
        r == Err(Conflict([NAME_TAKEN])) && roles == old(roles) && nextId == old(nextId)
      ensures !RoleNameTaken(old(roles), Lower(name)) ==>
        && roles == old(roles) + [Row(old(nextId), RoleData(Lower(name)))]
        && nextId == old(nextId) + 1
        && r == Ok(RoleView(old(nextId), Lower(name)))
    {
      var lowered := Lower(name);
      if RoleNameTaken(roles, lowered) {
        return Err(Conflict([NAME_TAKEN]));
      }
      LowerIdempotent(name);
      Appended(roles, nextId, RoleData(lowered));
      roles := roles + [Row(nextId, RoleData(lowered))];
      r := Ok(RoleView(nextId, lowered));
      nextId := nextId + 1;
    }

    /** `update`: `NotFound` for an unknown id; with a name, `Conflict` when another role
        has it lower-cased, else the name written; without one, the role unchanged. */
    method Update(id: int, name: Option<string>) returns (r: Result<RoleView>)
      requires Valid()
      modifies this
      ensures Valid() && nextId == old(nextId)
      ensures r.Err? ==> roles == old(roles)
      ensures IndexOfId(old(roles), id).None? ==> r == Err(NotFound(NotFoundMessage(id)))
      ensures IndexOfId(old(roles), id).Some? && name.None? ==>
        roles == old(roles) && r == Ok(View(old(roles)[IndexOfId(old(roles), id).value]))
      ensures IndexOfId(old(roles), id).Some? && name.Some? ==>
        var k := IndexOfId(old(roles), id).value;
        if RoleNameTakenByOther(old(roles), Lower(name.value), id) then r == Err(Conflict([NAME_TAKEN]))
        else r == Ok(RoleView(id, Lower(name.value))) && roles == Replaced(old(roles), k, RoleData(Lower(name.value)))
    {
      var k := IndexOfId(roles, id);
      if k.None? {
        return Err(NotFound(NotFoundMessage(id)));
      }
      if name.Some? {
        var lowered := Lower(name.value);
        if RoleNameTakenByOther(roles, lowered, id) {
          return Err(Conflict([NAME_TAKEN]));
        }
        LowerIdempotent(name.value);
        ReplacedKeyed(roles, nextId, k.value, RoleData(lowered));
        roles := Replaced(roles, k.value, RoleData(lowered));
      }
      r := Ok(View(roles[k.value]));
    }

    /** `remove`: the row with this id deleted, or `NotFound`. */
    method Remove(id: int) returns (err: Option<Failure>)
      requires Valid()
      modifies this
      ensures Valid() && nextId == old(nextId)
      ensures IndexOfId(old(roles), id).None? ==> err == Some(NotFound(NotFoundMessage(id))) && roles == old(roles)
      ensures IndexOfId(old(roles), id).Some? ==>
        err.None? && roles == Without(old(roles), IndexOfId(old(roles), id).value)
    {
      var k := IndexOfId(roles, id);
      if k.None? {
        return Some(NotFound(NotFoundMessage(id)));
      }
      RemoveKeepsValid(roles, nextId, k.value);
      roles := Without(roles, k.value);
      return None;
    }
  }

  /** A delete keeps the table valid. */
  lemma RemoveKeepsValid(roles: seq<Role>, nextId: nat, k: nat)
    requires Keyed(roles, nextId) && UniqueRoleNames(roles) && Lowered(roles) && k < |roles|
    ensures var r := Without(roles, k);
      Keyed(r, nextId) && UniqueRoleNames(r) && Lowered(r)
  {
    Removed(roles, nextId, k);
    RemoveKeepsUnique(roles, k);
  }

  lemma RemoveKeepsUnique(roles: seq<Role>, k: nat)
    requires UniqueRoleNames(roles) && k < |roles|
    ensures UniqueRoleNames(Without(roles, k))
  {
    var r := Without(roles, k);
    forall i, j | 0 <= i < j < |r|
      ensures r[i].data.name != r[j].data.name
    {
      if j < k {
        assert r[i] == roles[i] && r[j] == roles[j];
      } else if i < k {
        assert r[i] == roles[i] && r[j] == roles[j + 1];
      } else {
        assert r[i] == roles[i + 1] && r[j] == roles[j + 1];
      }
    }
  }

  /** Once a role is deleted no user lists it any more, though their links stay. */
  lemma {:induction false} DeletedRoleUnlisted(ids: set<nat>, roles: seq<Role>, nextId: nat, k: nat)
    requires Keyed(roles, nextId) && k < |roles|
    ensures forall v :: v in RolesOf(ids, Without(roles, k)) ==> v.id != roles[k].id
  {
    Removed(roles, nextId, k);
  }
}
