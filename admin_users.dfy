/** The admin user list: the page keeps its own list of user rows and
    replaces it when an admin toggles a user's status, changes a role or
    deletes a user; the rows shown are the list under a role filter and a
    status filter. */
module AdminUsers {
  import opened Common

  /** One row of the page's list; `totalSpent` in cents. */
  datatype UserRow = UserRow(
    id: int, name: string, email: string, role: string, status: string,
    joinDate: string, lastLogin: string, totalOrders: int, totalSpent: int)

  /** The filter choices; "all" matches everything. */
  const Roles: seq<string> := ["all", "customer", "admin"]
  const Statuses: seq<string> := ["all", "active", "inactive"]

  /** `getRoleColor(role)`. */
  function RoleColor(role: string): (c: string)
    ensures c == "error" <==> role == "admin"
    ensures c == "error" || c == "primary"
  {
    if role == "admin" then "error" else "primary"
  }

  /** `getStatusColor(status)`. */
  function StatusColor(status: string): (c: string)
    ensures c == "success" <==> status == "active"
    ensures c == "success" || c == "error"
  {
    if status == "active" then "success" else "error"
  }

  // ---------------------------------------------------------------- list updates

  /** The toggled status: "active" becomes "inactive", anything else "active". */
  function Flipped(status: string): string {
    if status == "active" then "inactive" else "active"
  }

  function ToggleIf(id: int): UserRow -> UserRow {
    (u: UserRow) => if u.id == id then u.(status := Flipped(u.status)) else u
  }

  function RoleIf(id: int, role: string): UserRow -> UserRow {
    (u: UserRow) => if u.id == id then u.(role := role) else u
  }

  function KeepOthers(id: int): UserRow -> bool {
    (u: UserRow) => u.id != id
  }

  /** `users.map(user => user.id === userId ? {...user, status: ...} : user)`. */
  function Toggled(users: seq<UserRow>, id: int): seq<UserRow> {
    Map(users, ToggleIf(id))
  }

  /** `users.map(user => user.id === userId ? {...user, role: newRole} : user)`. */
  function WithRole(users: seq<UserRow>, id: int, role: string): seq<UserRow> {
    Map(users, RoleIf(id, role))
  }

  /** `users.filter(user => user.id !== userId)`. */
  function Without(users: seq<UserRow>, id: int): seq<UserRow> {
    Filter(users, KeepOthers(id))
  }

  /** Toggling flips the status of the rows with that id and touches
      nothing else: same length, same order, other rows as they were. */
  lemma ToggledEffect(users: seq<UserRow>, id: int)
    ensures |Toggled(users, id)| == |users|
    ensures forall i :: 0 <= i < |users| ==>
      Toggled(users, id)[i] == (if users[i].id == id then users[i].(status := Flipped(users[i].status)) else users[i])
  {
  }

  /** Toggling twice restores every row whose status is "active" or
      "inactive"; a row with any other status ends up "inactive". */
  lemma {:induction false} ToggleTwice(users: seq<UserRow>, id: int)
    ensures |Toggled(Toggled(users, id), id)| == |users|
    ensures forall i :: 0 <= i < |users| ==>
      var u := Toggled(Toggled(users, id), id)[i];
      && (users[i].status in {"active", "inactive"} ==> u == users[i])
      && (users[i].id == id && users[i].status !in {"active", "inactive"} ==> u == users[i].(status := "inactive"))
  {
    var once := Toggled(users, id);
    var twice := Toggled(once, id);
    forall i | 0 <= i < |users|
      ensures users[i].status in {"active", "inactive"} ==> twice[i] == users[i]
      ensures users[i].id == id && users[i].status !in {"active", "inactive"} ==> twice[i] == users[i].(status := "inactive")
    {
      assert once[i] == ToggleIf(id)(users[i]);
      assert twice[i] == ToggleIf(id)(once[i]);
    }
  }

  /** When every row is active or inactive, toggling twice is the identity. */
  lemma ToggleTwiceIdentity(users: seq<UserRow>, id: int)
    requires forall i :: 0 <= i < |users| ==> users[i].status in {"active", "inactive"}
    ensures Toggled(Toggled(users, id), id) == users
  {
    ToggleTwice(users, id);
  }

  /** A toggle always moves the status chip of the rows with that id
      between "success" and "error", and leaves every other chip alone. */
  lemma ToggledColors(users: seq<UserRow>, id: int)
    ensures forall i :: 0 <= i < |users| ==>
      var c := StatusColor(Toggled(users, id)[i].status);
      && (users[i].id == id ==> (c == "success" <==> StatusColor(users[i].status) == "error"))
      && (users[i].id != id ==> c == StatusColor(users[i].status))
  {
    ToggledEffect(users, id);
  }

  /** A role change sets the role of the rows with that id only. */
  lemma WithRoleEffect(users: seq<UserRow>, id: int, role: string)
    ensures |WithRole(users, id, role)| == |users|
    ensures forall i :: 0 <= i < |users| ==>
      WithRole(users, id, role)[i] == (if users[i].id == id then users[i].(role := role) else users[i])
  {
  }

  /** After a role change the rows with that id are shown in "error"
      exactly when the new role is "admin"; other rows keep their colour. */
  lemma RoleChangeColors(users: seq<UserRow>, id: int, role: string)
    ensures forall i :: 0 <= i < |users| ==>
      var c := RoleColor(WithRole(users, id, role)[i].role);
      && (users[i].id == id ==> (c == "error" <==> role == "admin"))
      && (users[i].id != id ==> c == RoleColor(users[i].role))
  {
    WithRoleEffect(users, id, role);
  }

  /** Deleting removes exactly the rows with that id: none is left, and every
      other row is kept as often as it occurred. */
  lemma WithoutEffect(users: seq<UserRow>, id: int, u: UserRow)
    ensures forall i :: 0 <= i < |Without(users, id)| ==> Without(users, id)[i].id != id
    ensures multiset(Without(users, id))[u] == if u.id == id then 0 else multiset(users)[u]
    ensures (forall i :: 0 <= i < |users| ==> users[i].id != id) ==> Without(users, id) == users
  {
    FilterMultiset(users, KeepOthers(id), u);
    if forall i :: 0 <= i < |users| ==> users[i].id != id {
      FilterAll(users, KeepOthers(id));
    }
  }

  // ---------------------------------------------------------------- filtering

  /** `roleFilter === "all" || user.role === roleFilter`, and likewise for
      the status. */
  predicate Matches(roleFilter: string, statusFilter: string, u: UserRow) {
    (roleFilter == "all" || u.role == roleFilter) && (statusFilter == "all" || u.status == statusFilter)
  }

  function MatchesFilters(roleFilter: string, statusFilter: string): UserRow -> bool {
    (u: UserRow) => Matches(roleFilter, statusFilter, u)
  }

  /** `filteredUsers`. */
  function FilteredUsers(users: seq<UserRow>, roleFilter: string, statusFilter: string): seq<UserRow> {
    Filter(users, MatchesFilters(roleFilter, statusFilter))
  }

  /** The shown rows are the matching rows, each as often as in the list;
      with both filters at "all" they are the whole list. */
  lemma FilteredUsersEffect(users: seq<UserRow>, roleFilter: string, statusFilter: string, u: UserRow)
    ensures forall i :: 0 <= i < |FilteredUsers(users, roleFilter, statusFilter)| ==>
      Matches(roleFilter, statusFilter, FilteredUsers(users, roleFilter, statusFilter)[i])
    ensures multiset(FilteredUsers(users, roleFilter, statusFilter))[u] ==
      if Matches(roleFilter, statusFilter, u) then multiset(users)[u] else 0
    ensures roleFilter == "all" && statusFilter == "all" ==> FilteredUsers(users, roleFilter, statusFilter) == users
  {
    FilterMultiset(users, MatchesFilters(roleFilter, statusFilter), u);
    if roleFilter == "all" && statusFilter == "all" {
      FilterAll(users, MatchesFilters(roleFilter, statusFilter));
    }
  }

  // ---------------------------------------------------------------- the page

  class UsersPage {
    var users: seq<UserRow>
    var roleFilter: string
    var statusFilter: string

    constructor(initial: seq<UserRow>)
      ensures users == initial && roleFilter == "all" && statusFilter == "all"
    {
      users := initial;
      roleFilter := "all";
      statusFilter := "all";
    }

    /** `handleStatusToggle(userId)`. */
    method HandleStatusToggle(userId: int)
      modifies this
      ensures users == Toggled(old(users), userId)
      ensures roleFilter == old(roleFilter) && statusFilter == old(statusFilter)
    {
      users := Map(users, ToggleIf(userId));
    }

    /** `handleRoleChange(userId, newRole)`. */
    method HandleRoleChange(userId: int, newRole: string)
      modifies this
      ensures users == WithRole(old(users), userId, newRole)
      ensures roleFilter == old(roleFilter) && statusFilter == old(statusFilter)
    {
      users := Map(users, RoleIf(userId, newRole));
    }

    /** `handleDeleteUser(userId)`; `confirmed` is the answer to the
        browser's confirmation dialog. */
    method HandleDeleteUser(userId: int, confirmed: bool)
      modifies this
      ensures users == if confirmed then Without(old(users), userId) else old(users)
      ensures roleFilter == old(roleFilter) && statusFilter == old(statusFilter)
    {
      if confirmed {
        users := Filter(users, KeepOthers(userId));
      }
    }

    method SetFilters(role: string, status: string)
      modifies this
      ensures users == old(users) && roleFilter == role && statusFilter == status
    {
      roleFilter, statusFilter := role, status;
    }
  }
}
