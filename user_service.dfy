/** `UserService` (src/user/user.service.ts): the user table with lower-cased, unique user
    names. Password hashing is bcrypt's and is not modelled: the hash of the given
    password comes in as a parameter. The role table is read, never written. */
module Users {
  import opened Wrappers
  import opened Text
  import opened Table
  import opened Accounts

  const USERNAME_TAKEN: string := "Username already taken"
  const NULL_ROLE_IDS: string := "Cannot read properties of null (reading 'length')"

  function NotFoundMessage(id: int): string {
    "User with id " + IntToString(id) + " not found"
  }

  datatype CreateUserDto = CreateUserDto(username: string, email: string, password: string, roleIds: Option<seq<int>>)

  /** `username`, `email` and `password` are skipped when null or absent; `roleIds` is
      acted on whenever the key is present, even when it holds null. */
  datatype UpdateUserDto = UpdateUserDto(
    username: Option<string>, email: Option<string>, password: Option<string>, roleIds: Patch<Option<seq<int>>>)

  /** `roleRepo.find({ id: { $in: ids } })`: the role rows whose id was asked for. */
  function FindRoles(ids: seq<int>, roles: seq<Role>): (r: seq<Role>)
    ensures forall x :: x in r <==> x in roles && x.id in ids
  {
    if |roles| == 0 then []
    else
      var rest := FindRoles(ids, roles[1..]);
      assert forall x :: x in roles <==> x == roles[0] || x in roles[1..];
      if roles[0].id in ids then [roles[0]] + rest else rest
  }

  /** The roles linked on create: none without a non-empty `roleIds`. */
  function LinkedOnCreate(ids: Option<seq<int>>, roles: seq<Role>): set<nat> {
    if ids.Some? && |ids.value| > 0 then FoundRoleIds(ids.value, roles) else {}
  }

  /** The row `create` inserts. */
  function CreatedUser(dto: CreateUserDto, hash: string, roles: seq<Role>): UserData {
    UserData(Lower(dto.username), Lower(dto.email), hash, LinkedOnCreate(dto.roleIds, roles))
  }

  /** The row after an `update` that got past its checks: each given field written,
      and the links replaced when `roleIds` is a list. */
  function UpdatedUser(u: UserData, dto: UpdateUserDto, hash: string, roles: seq<Role>): UserData
    requires dto.roleIds != Set(None)
  {
    UserData(
      if dto.username.Some? then Lower(dto.username.value) else u.username,
      if dto.email.Some? then Lower(dto.email.value) else u.email,
      if dto.password.Some? then hash else u.passwordHash,
      if dto.roleIds.Keep? then u.roleIds
      else if |dto.roleIds.value.value| > 0 then FoundRoleIds(dto.roleIds.value.value, roles)
      else {})
  }

  /** User names and e-mails are stored lower-cased. */
  predicate Lowered(users: seq<User>) {
    forall i :: 0 <= i < |users| ==>
      Lower(users[i].data.username) == users[i].data.username && Lower(users[i].data.email) == users[i].data.email
  }

  /** `for (const role of roleEntities) user.roles.add(role)`. */
  method AddRoles(linked: set<nat>, found: seq<Role>) returns (r: set<nat>)
    ensures forall id :: id in r <==> id in linked || exists i :: 0 <= i < |found| && found[i].id == id
  {
    r := linked;
    for n := 0 to |found|
      invariant forall id :: id in r <==> id in linked || exists i :: 0 <= i < n && found[i].id == id
    {
      r := r + {found[n].id};
    }
  }

  /** The links loaded for a non-empty `roleIds` are exactly the existing roles asked for. */
  method LinkRoles(ids: seq<int>, roles: seq<Role>) returns (r: set<nat>)
    ensures r == FoundRoleIds(ids, roles)
  {
    var found := FindRoles(ids, roles);
    r := AddRoles({}, found);
    forall id | id in r
      ensures id in FoundRoleIds(ids, roles)
    {
      var i :| 0 <= i < |found| && found[i].id == id;
      assert found[i] in roles;
    }
    forall id | id in FoundRoleIds(ids, roles)
      ensures id in r
    {
      var i :| 0 <= i < |roles| && roles[i].id == id;
      assert roles[i] in found;
    }
  }

  class UserService {
    var users: seq<User>
    var nextId: nat

    /** Ids are keyed, user names unique, and names and e-mails lower-cased. */
    ghost predicate Valid()
      reads this
    {
      Keyed(users, nextId) && UniqueUsernames(users) && Lowered(users)
    }

    constructor ()
      ensures Valid() && users == [] && nextId == 1
    {
      users := [];
      nextId := 1;
    }

    /** `findAll`: every user in id order. */
    function FindAll(roles: seq<Role>): (r: seq<UserView>)
      reads this
      ensures |r| == |users|
      ensures forall i :: 0 <= i < |r| ==> r[i] == ToResponse(users[i], roles)
    {
      seq(|users|, i requires 0 <= i < |users| reads this => ToResponse(users[i], roles))
    }

    /** `findOne`: the user with this id, or `NotFound`. */
    function FindOne(id: int, roles: seq<Role>): (r: Result<UserView>)
      reads this
      ensures r.Err? <==> IndexOfId(users, id).None?
      ensures r.Err? ==> r.error == NotFound(NotFoundMessage(id))
      ensures r.Ok? ==> r.value.id == id && r.value == ToResponse(users[IndexOfId(users, id).value], roles)
    {
      var k := IndexOfId(users, id);
      if k.None? then Err(NotFound(NotFoundMessage(id))) else Ok(ToResponse(users[k.value], roles))
    }

    /** `create`: refused when the lower-cased name is taken; otherwise a new row with the
        next id, answered as `findOne` would answer it. */
    method Create(dto: CreateUserDto, hash: string, roles: seq<Role>) returns (r: Result<UserView>)
      requires Valid()
      modifies this
      ensures Valid()
      ensures UsernameTaken(old(users), Lower(dto.username)) ==>
        r == Err(Conflict([USERNAME_TAKEN])) && users == old(users) && nextId == old(nextId)
      ensures !UsernameTaken(old(users), Lower(dto.username)) ==>
        && users == old(users) + [Row(old(nextId), CreatedUser(dto, hash, roles))]
        && nextId == old(nextId) + 1
        && r == Ok(ToResponse(Row(old(nextId), CreatedUser(dto, hash, roles)), roles))
    {
      var name := Lower(dto.username);
      if UserNamed(users, name).Some? {
        return Err(Conflict([USERNAME_TAKEN]));
      }
      var linked: set<nat> := {};
      if dto.roleIds.Some? && |dto.roleIds.value| > 0 {
        linked := LinkRoles(dto.roleIds.value, roles);
      }
      var row := Row(nextId, UserData(name, Lower(dto.email), hash, linked));
      CreateKeepsValid(users, nextId, dto, hash, roles);
      users := users + [row];
      nextId := nextId + 1;
      r := FindOne(row.id, roles);
    }

    /** `update`: `NotFound` for an unknown id; `Conflict` when another user has the new
        lower-cased name; a `TypeError` when `roleIds` is null; otherwise the given fields
        written and the row answered. Nothing is stored on any failure. */
    method Update(id: int, dto: UpdateUserDto, hash: string, roles: seq<Role>) returns (r: Result<UserView>)
      requires Valid()
      modifies this
      ensures Valid() && nextId == old(nextId)
      ensures r.Err? ==> users == old(users)
      ensures IndexOfId(old(users), id).None? ==> r == Err(NotFound(NotFoundMessage(id)))
      ensures (IndexOfId(old(users), id).Some? && dto.username.Some?
        && UsernameTakenByOther(old(users), Lower(dto.username.value), id)) ==>
        r == Err(Conflict([USERNAME_TAKEN]))
      ensures (IndexOfId(old(users), id).Some?
        && !(dto.username.Some? && UsernameTakenByOther(old(users), Lower(dto.username.value), id))) ==>
        (dto.roleIds == Set(None) <==> r == Err(TypeError(NULL_ROLE_IDS)))
      ensures (IndexOfId(old(users), id).Some?
        && !(dto.username.Some? && UsernameTakenByOther(old(users), Lower(dto.username.value), id))
        && dto.roleIds != Set(None)) ==> r.Ok?
      ensures r.Ok? ==>
        var k := IndexOfId(old(users), id).value;
        && dto.roleIds != Set(None)
        && users == Replaced(old(users), k, UpdatedUser(old(users)[k].data, dto, hash, roles))
        && r.value == ToResponse(users[k], roles)
    {
      var k := IndexOfId(users, id);
      if k.None? {
        return Err(NotFound(NotFoundMessage(id)));
      }
      var i := k.value;
      if dto.username.Some? && UsernameTakenByOther(users, Lower(dto.username.value), id) {
        return Err(Conflict([USERNAME_TAKEN]));
      }
      var linked := users[i].data.roleIds;
      if dto.roleIds.Set? {
        if dto.roleIds.value.None? {
          return Err(TypeError(NULL_ROLE_IDS));
        }
        linked := {};
        if |dto.roleIds.value.value| > 0 {
          linked := LinkRoles(dto.roleIds.value.value, roles);
        }
      }
      var data := UpdatedUser(users[i].data, dto, hash, roles);
      assert data.roleIds == linked;
      UpdateKeepsValid(users, nextId, i, dto, hash, roles);
      users := Replaced(users, i, data);
      r := FindOne(id, roles);
    }

    /** `remove`: the row with this id deleted, or `NotFound`. */
    method Remove(id: int) returns (err: Option<Failure>)
      requires Valid()
      modifies this
      ensures Valid() && nextId == old(nextId)
      ensures IndexOfId(old(users), id).None? ==> err == Some(NotFound(NotFoundMessage(id))) && users == old(users)
      ensures IndexOfId(old(users), id).Some? ==>
        err.None? && users == Without(old(users), IndexOfId(old(users), id).value)
    {
      var k := IndexOfId(users, id);
      if k.None? {
        return Some(NotFound(NotFoundMessage(id)));
      }
      RemoveKeepsValid(users, nextId, k.value);
      users := Without(users, k.value);
      return None;
    }
  }

  /** An update that passed the name check keeps the table keyed, its names unique and
      lower-cased. */
  lemma UpdateKeepsValid(users: seq<User>, nextId: nat, i: nat, dto: UpdateUserDto, hash: string, roles: seq<Role>)
    requires Keyed(users, nextId) && UniqueUsernames(users) && Lowered(users) && i < |users|
    requires dto.roleIds != Set(None)
    requires dto.username.Some? ==> !UsernameTakenByOther(users, Lower(dto.username.value), users[i].id)
    ensures var r := Replaced(users, i, UpdatedUser(users[i].data, dto, hash, roles));
      Keyed(r, nextId) && UniqueUsernames(r) && Lowered(r)
  {
    var data := UpdatedUser(users[i].data, dto, hash, roles);
    ReplacedKeyed(users, nextId, i, data);
    if dto.username.Some? { LowerIdempotent(dto.username.value); }
    if dto.email.Some? { LowerIdempotent(dto.email.value); }
  }

  /** An insert under a fresh lower-cased name keeps the table valid. */
  lemma CreateKeepsValid(users: seq<User>, nextId: nat, dto: CreateUserDto, hash: string, roles: seq<Role>)
    requires Keyed(users, nextId) && UniqueUsernames(users) && Lowered(users)
    requires !UsernameTaken(users, Lower(dto.username))
    ensures var r := users + [Row(nextId, CreatedUser(dto, hash, roles))];
      Keyed(r, nextId + 1) && UniqueUsernames(r) && Lowered(r) && IndexOfId(r, nextId) == Some(|users|)
  {
    LowerIdempotent(dto.username);
    LowerIdempotent(dto.email);
    Appended(users, nextId, CreatedUser(dto, hash, roles));
  }

  /** A delete keeps the table valid. */
  lemma RemoveKeepsValid(users: seq<User>, nextId: nat, k: nat)
    requires Keyed(users, nextId) && UniqueUsernames(users) && Lowered(users) && k < |users|
    ensures var r := Without(users, k);
      Keyed(r, nextId) && UniqueUsernames(r) && Lowered(r)
  {
    Removed(users, nextId, k);
    RemoveKeepsUnique(users, k);
  }

  lemma RemoveKeepsUnique(users: seq<User>, k: nat)
    requires UniqueUsernames(users) && k < |users|
    ensures UniqueUsernames(Without(users, k))
  {
    var r := Without(users, k);
    forall i, j | 0 <= i < j < |r|
      ensures r[i].data.username != r[j].data.username
    {
      if j < k {
        assert r[i] == users[i] && r[j] == users[j];
      } else if i < k {
        assert r[i] == users[i] && r[j] == users[j + 1];
      } else {
        assert r[i] == users[i + 1] && r[j] == users[j + 1];
      }
    }
  }

  /** An update repeated with the same input changes nothing more. */
  lemma UpdateIdempotent(u: UserData, dto: UpdateUserDto, hash: string, roles: seq<Role>)
    requires dto.roleIds != Set(None)
    ensures UpdatedUser(UpdatedUser(u, dto, hash, roles), dto, hash, roles) == UpdatedUser(u, dto, hash, roles)
  {
  }

  /** An update that names no field leaves the row as it was. */
  lemma EmptyUpdateKeepsRow(u: UserData, hash: string, roles: seq<Role>)
    ensures UpdatedUser(u, UpdateUserDto(None, None, None, Keep), hash, roles) == u
  {
  }

  /** An empty `roleIds` list clears every link; a list of unknown ids does too. */
  lemma EmptyRoleIdsClear(u: UserData, dto: UpdateUserDto, hash: string, roles: seq<Role>)
    requires dto.roleIds.Set? && dto.roleIds.value.Some?
    requires forall x :: x in dto.roleIds.value.value ==> IndexOfId(roles, x).None?
    ensures UpdatedUser(u, dto, hash, roles).roleIds == {}
  {
  }
}
