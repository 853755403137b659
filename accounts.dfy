/** The account tables shared by authentication, users and roles (src/user/user.entity.ts,
    src/role/role.entity.ts): users with a unique user name and a password hash, roles
    with a unique name, and the `user_roles` link between them, kept on the user side. */
module Accounts {
  import opened Wrappers
  import opened Table

  datatype RoleData = RoleData(name: string)
  type Role = Row<RoleData>

  /** A user row; `roleIds` is the user's side of the many-to-many link. */
  datatype UserData = UserData(username: string, email: string, passwordHash: string, roleIds: set<nat>)
  type User = Row<UserData>

  datatype RoleView = RoleView(id: nat, name: string)

  /** The authenticated user the guards attach to a request (`JwtUser`), roles by name. */
  datatype JwtUser = JwtUser(id: int, username: string, email: string, roles: seq<string>)

  /** `UserResponse` of the user service. */
  datatype UserView = UserView(id: nat, username: string, email: string, roles: seq<RoleView>)

  /** The user's roles as `populate: ['roles']` loads them, in role-id order; a link to a
      role that no longer exists loads nothing. */
  function RolesOf(roleIds: set<nat>, roles: seq<Role>): (r: seq<RoleView>)
    ensures |r| <= |roles|
    ensures forall v :: v in r <==>
      exists i :: 0 <= i < |roles| && roles[i].id in roleIds && v == RoleView(roles[i].id, roles[i].data.name)
  {
    if |roles| == 0 then []
    else
      var rest := RolesOf(roleIds, roles[1..]);
      assert forall i :: 0 <= i < |roles| - 1 ==> roles[1..][i] == roles[i + 1];
      if roles[0].id in roleIds then [RoleView(roles[0].id, roles[0].data.name)] + rest else rest
  }

  /** `roleRepo.find({ id: { $in: ids } })`: the ids of the existing roles among `ids`. */
  function FoundRoleIds(ids: seq<int>, roles: seq<Role>): (r: set<nat>)
    ensures forall id :: id in r <==> id in ids && IndexOfId(roles, id).Some?
  {
    set i | 0 <= i < |roles| && roles[i].id in ids :: roles[i].id
  }

  /** `toResponse`. */
  function ToResponse(user: User, roles: seq<Role>): UserView {
    UserView(user.id, user.data.username, user.data.email, RolesOf(user.data.roleIds, roles))
  }

  /** `userRepo.findOne({ username })`: some user has exactly this user name. */
  predicate UsernameTaken(users: seq<User>, name: string) {
    exists i :: 0 <= i < |users| && users[i].data.username == name
  }

  /** `userRepo.findOne({ username, id: { $ne: id } })`. */
  predicate UsernameTakenByOther(users: seq<User>, name: string, id: int) {
    exists i :: 0 <= i < |users| && users[i].data.username == name && users[i].id != id
  }

  /** The unique constraint on `users.username`. */
  predicate UniqueUsernames(users: seq<User>) {
    forall i, j :: 0 <= i < j < |users| ==> users[i].data.username != users[j].data.username
  }

  /** `roleRepo.findOne({ name })`. */
  predicate RoleNameTaken(roles: seq<Role>, name: string) {
    exists i :: 0 <= i < |roles| && roles[i].data.name == name
  }

  /** `roleRepo.findOne({ name, id: { $ne: id } })`. */
  predicate RoleNameTakenByOther(roles: seq<Role>, name: string, id: int) {
    exists i :: 0 <= i < |roles| && roles[i].data.name == name && roles[i].id != id
  }

  /** The unique constraint on `roles.name`. */
  predicate UniqueRoleNames(roles: seq<Role>) {
    forall i, j :: 0 <= i < j < |roles| ==> roles[i].data.name != roles[j].data.name
  }

  /** The user with this user name, if any; with unique names it is the only one. */
  function UserNamed(users: seq<User>, name: string): (r: Option<nat>)
    ensures r.Some? ==> r.value < |users| && users[r.value].data.username == name
    ensures r.None? <==> !UsernameTaken(users, name)
  {
    if |users| == 0 then None
    else if users[0].data.username == name then Some(0)
    else
      match UserNamed(users[1..], name)
      case None =>
        assert forall i :: 1 <= i < |users| ==> users[i] == users[1..][i - 1];
        None
      case Some(k) => Some(k + 1)
  }

  /** The names of the roles a user holds, as the login answer and the JWT strategy list
      them. */
  function RoleNames(views: seq<RoleView>): (r: seq<string>)
    ensures |r| == |views| && forall i :: 0 <= i < |r| ==> r[i] == views[i].name
  {
    if |views| == 0 then [] else [views[0].name] + RoleNames(views[1..])
  }
}
