/** Users, roles and role assignments: the database-backed user backend. */
module RoleStore {
  import opened Collections
  import opened Permissions

  datatype Account = Account(oidcLinked: bool, active: bool, isService: bool)

  /** One user_role_assignments row; scope None is the global scope. */
  datatype Assignment = Assignment(user: string, role: string, scope: Option<string>)

  /** Users by unique username, roles by unique name, assignments in row order. */
  datatype Store = Store(users: map<string, Account>, roles: map<string, Role>, assignments: seq<Assignment>)

  const BUILTIN_NAMES := {"catalog_viewer", "viewer", "launcher", "editor", "admin"}

  /** Each role is stored under its own name. */
  ghost predicate Named(roles: map<string, Role>) {
    forall name :: name in roles ==> roles[name].name == name
  }

  /** A freshly seeded store: the built-in roles, no users. */
  ghost predicate Seeded(s: Store) {
    s.users == map[] && s.assignments == [] && s.roles.Keys == BUILTIN_NAMES && Named(s.roles) &&
    forall name :: name in s.roles ==> s.roles[name].isBuiltin
  }

  // ---- What each operation does; an error leaves the database as it was ----

  function WithUser(s: Store, username: string, role: Option<string>, account: Account): Result<Store> {
    if role.Some? && role.value != "" && role.value !in s.roles then Err("role not found")
    else if username in s.users then Err("username taken")
    else
      Ok(s.(users := s.users[username := account],
            assignments := s.assignments +
              (if role.Some? && role.value != "" then [Assignment(username, role.value, None)] else [])))
  }

  /** The row of the user's first global assignment. */
  function FirstGlobal(rows: seq<Assignment>, user: string): (i: Option<nat>)
    ensures i.Some? ==> i.value < |rows| && rows[i.value].user == user && rows[i.value].scope.None?
    ensures forall j :: 0 <= j < (if i.Some? then i.value else |rows|) ==>
      !(rows[j].user == user && rows[j].scope.None?)
  {
    if rows == [] then None
    else if rows[0].user == user && rows[0].scope.None? then Some(0)
    else
      match FirstGlobal(rows[1..], user)
      case None => None
      case Some(i) => Some(i + 1)
  }

  function WithGlobalRole(rows: seq<Assignment>, user: string, role: string): seq<Assignment> {
    match FirstGlobal(rows, user)
    case None => rows + [Assignment(user, role, None)]
    case Some(i) => rows[i := rows[i].(role := role)]
  }

  function UpdatedUser(
      s: Store, username: string, setsPassword: bool, role: Option<string>, active: Option<bool>): Result<Store>
  {
    if username !in s.users then Err("user not found")
    else if setsPassword && s.users[username].oidcLinked then Err("password of an OIDC user")
    else if role.Some? && role.value !in s.roles then Err("role not found")
    else
      var account := s.users[username];
      Ok(s.(users := s.users[username := if active.Some? then account.(active := active.value) else account],
            assignments := if role.Some? then WithGlobalRole(s.assignments, username, role.value) else s.assignments))
  }

  function NotOf(user: string): Assignment -> bool {
    (a: Assignment) => a.user != user
  }

  /** Deleting a user cascades to its assignments. */
  function WithoutUser(s: Store, username: string): Result<Store> {
    if username !in s.users then Err("user not found")
    else Ok(s.(users := s.users - {username}, assignments := Filter(s.assignments, NotOf(username))))
  }

  function Copies(rows: seq<Assignment>, a: Assignment): nat {
    multiset(rows)[a]
  }

  /** Reading "the" existing row raises when there are two. */
  function Assigned(s: Store, username: string, role: string, scope: Option<string>): Result<Store> {
    var a := Assignment(username, role, scope);
    if role !in s.roles then Err("role not found")
    else if username !in s.users then Err("user not found")
    else if Copies(s.assignments, a) > 1 then Err("multiple rows found")
    else if Copies(s.assignments, a) == 1 then Ok(s)
    else Ok(s.(assignments := s.assignments + [a]))
  }

  function IsNot(a: Assignment): Assignment -> bool {
    (b: Assignment) => b != a
  }

  /** None when there was nothing to remove. */
  function Unassigned(s: Store, username: string, role: string, scope: Option<string>): Result<Option<Store>> {
    var a := Assignment(username, role, scope);
    if username !in s.users || role !in s.roles || Copies(s.assignments, a) == 0 then Ok(None)
    else if Copies(s.assignments, a) > 1 then Err("multiple rows found")
    else Ok(Some(s.(assignments := Filter(s.assignments, IsNot(a)))))
  }

  /** A role and the scope it is wanted for, as the caller wrote it. */
  datatype Wanted = Wanted(role: string, scope: Option<string>)

  /** An empty location name means the global scope. */
  function ScopeOf(w: Wanted): Option<string> {
    if w.scope == Some("") then None else w.scope
  }

  predicate UniqueScopes(wanted: seq<Wanted>) {
    forall i, j :: 0 <= i < j < |wanted| ==> ScopeOf(wanted[i]) != ScopeOf(wanted[j])
  }

  predicate RolesExist(wanted: seq<Wanted>, roles: map<string, Role>) {
    forall i :: 0 <= i < |wanted| ==> wanted[i].role in roles
  }

  function Rows(username: string, wanted: seq<Wanted>): seq<Assignment> {
    seq(|wanted|, i requires 0 <= i < |wanted| => Assignment(username, wanted[i].role, ScopeOf(wanted[i])))
  }

  function Reassigned(s: Store, username: string, wanted: seq<Wanted>): Result<Store> {
    if !UniqueScopes(wanted) then Err("duplicate scope")
    else if username !in s.users then Err("user not found")
    else if !RolesExist(wanted, s.roles) then Err("role not found")
    else Ok(s.(assignments := Filter(s.assignments, NotOf(username)) + Rows(username, wanted)))
  }

  function WithRole(s: Store, name: string, permissions: Flags): Result<Store> {
    if name in s.roles then Err("role name taken")
    else Ok(s.(roles := s.roles[name := Role(name, false, permissions)]))
  }

  function UpdatedRole(s: Store, name: string, permissions: Option<Flags>): Result<Store> {
    if name !in s.roles then Err("role not found")
    else if s.roles[name].isBuiltin then Err("built-in role")
    else if permissions.None? then Ok(s)
    else Ok(s.(roles := s.roles[name := s.roles[name].(permissions := permissions.value)]))
  }

  predicate InUse(s: Store, name: string) {
    exists i :: 0 <= i < |s.assignments| && s.assignments[i].role == name
  }

  function WithoutRole(s: Store, name: string): Result<Store> {
    if name !in s.roles then Err("role not found")
    else if s.roles[name].isBuiltin then Err("built-in role")
    else if InUse(s, name) then Err("role still assigned")
    else Ok(s.(roles := s.roles - {name}))
  }

  // ---- Queries ----

  function AppliesAt(user: string, location: Option<string>): Assignment -> bool {
    (a: Assignment) =>
      a.user == user && (a.scope.None? || (location.Some? && location.value != "" && a.scope == location))
  }

  function RolesOf(rows: seq<Assignment>, roles: map<string, Role>): seq<Role>
    requires forall a :: a in rows ==> a.role in roles
  {
    seq(|rows|, i requires 0 <= i < |rows| => roles[rows[i].role])
  }

  ghost predicate Referential(s: Store) {
    Named(s.roles) && forall a :: a in s.assignments ==> a.user in s.users && a.role in s.roles
  }

  /** The roles that apply to a user at a location: the global ones and those of that location. */
  function RolesForLocation(s: Store, username: string, location: Option<string>): seq<Role>
    requires Referential(s)
  {
    if username !in s.users then []
    else
      InFilter(s.assignments, AppliesAt(username, location));
      RolesOf(Filter(s.assignments, AppliesAt(username, location)), s.roles)
  }

  /** The role of the first global assignment. */
  function GlobalRole(s: Store, username: string): Option<Role>
    requires Referential(s)
  {
    match FirstGlobal(s.assignments, username)
    case None => None
    case Some(i) => assert s.assignments[i] in s.assignments; Some(s.roles[s.assignments[i].role])
  }

  // ---- The backend ----

  class Backend {
    var users: map<string, Account>
    var roles: map<string, Role>
    var assignments: seq<Assignment>

    ghost function Contents(): Store
      reads this
    {
      Store(users, roles, assignments)
    }

    /** What a transaction leaves behind: its result, or the old database when it raised. */
    twostate predicate Committed(r: Result<Store>)
      reads this
    {
      Contents() == if r.Ok? then r.value else old(Contents())
    }

    method CreateUser(username: string, role: Option<string>) returns (ok: bool)
      modifies this
      ensures ok == WithUser(old(Contents()), username, role, Account(false, true, false)).Ok?
      ensures Committed(WithUser(old(Contents()), username, role, Account(false, true, false)))
    {
      var named := role.Some? && role.value != "";
      ok := !(named && role.value !in roles) && username !in users;
      if ok {
        users := users[username := Account(false, true, false)];
        if named {
          assignments := assignments + [Assignment(username, role.value, None)];
        }
      }
    }

    /** Scans the user's rows for the first global one. */
    method FindGlobal(username: string) returns (found: Option<nat>)
      ensures found == FirstGlobal(assignments, username)
    {
      var i := 0;
      while i < |assignments|
        invariant 0 <= i <= |assignments|
        invariant forall j :: 0 <= j < i ==> !(assignments[j].user == username && assignments[j].scope.None?)
      {
        if assignments[i].user == username && assignments[i].scope.None? {
          return Some(i);
        }
        i := i + 1;
      }
      return None;
    }

    method UpdateUser(username: string, setsPassword: bool, role: Option<string>, active: Option<bool>)
      returns (ok: bool)
      modifies this
      ensures ok == UpdatedUser(old(Contents()), username, setsPassword, role, active).Ok?
      ensures Committed(UpdatedUser(old(Contents()), username, setsPassword, role, active))
    {
      ok := username in users && !(setsPassword && users[username].oidcLinked) && (role.None? || role.value in roles);
      if !ok {
        return;
      }
      if role.Some? {
        var row := FindGlobal(username);
        if row.Some? {
          assignments := assignments[row.value := assignments[row.value].(role := role.value)];
        } else {
          assignments := assignments + [Assignment(username, role.value, None)];
        }
      }
      if active.Some? {
        users := users[username := users[username].(active := active.value)];
      }
    }

    method DeleteUser(username: string) returns (ok: bool)
      modifies this
      ensures ok == WithoutUser(old(Contents()), username).Ok?
      ensures Committed(WithoutUser(old(Contents()), username))
    {
      ok := username in users;
      if ok {
        assignments := Filter(assignments, NotOf(username));
        users := users - {username};
      }
    }

    method AssignRoleToLocation(username: string, role: string, scope: Option<string>) returns (ok: bool)
      modifies this
      ensures ok == Assigned(old(Contents()), username, role, scope).Ok?
      ensures Committed(Assigned(old(Contents()), username, role, scope))
    {
      ok := role in roles && username in users;
      if ok {
        var copies := Copies(assignments, Assignment(username, role, scope));
        if copies > 1 {
          ok := false;
        } else if copies == 0 {
          assignments := assignments + [Assignment(username, role, scope)];
        }
      }
    }

    method RemoveRoleFromLocation(username: string, role: string, scope: Option<string>) returns (r: Result<bool>)
      modifies this
      ensures
        var spec := Unassigned(old(Contents()), username, role, scope);
        && (r.Err? <==> spec.Err?) && (r.Ok? ==> r.value == spec.value.Some?)
        && Contents() == if spec.Ok? && spec.value.Some? then spec.value.value else old(Contents())
    {
      if username !in users || role !in roles {
        return Ok(false);
      }
      var a := Assignment(username, role, scope);
      var copies := Copies(assignments, a);
      if copies > 1 {
        return Err("multiple rows found");
      }
      if copies == 0 {
        return Ok(false);
      }
      assignments := Filter(assignments, IsNot(a));
      return Ok(true);
    }

    /** Validates the scopes, then replaces the user's rows one by one; a missing role rolls everything back. */
    method SetUserRoleAssignments(username: string, wanted: seq<Wanted>) returns (ok: bool)
      modifies this
      ensures ok == Reassigned(old(Contents()), username, wanted).Ok?
      ensures Committed(Reassigned(old(Contents()), username, wanted))
    {
      var unique := ScopesAreUnique(wanted);
      if !unique || username !in users {
        return false;
      }
      var pending := Filter(assignments, NotOf(username));
      var i := 0;
      while i < |wanted|
        invariant 0 <= i <= |wanted|
        invariant RolesExist(wanted[..i], roles)
        invariant pending == Filter(assignments, NotOf(username)) + Rows(username, wanted[..i])
      {
        if wanted[i].role !in roles {
          return false;
        }
        assert Rows(username, wanted[..i + 1]) ==
          Rows(username, wanted[..i]) + [Assignment(username, wanted[i].role, ScopeOf(wanted[i]))];
        pending := pending + [Assignment(username, wanted[i].role, ScopeOf(wanted[i]))];
        i := i + 1;
      }
      assert wanted[..i] == wanted;
      assignments := pending;
      return true;
    }

    method CreateRole(name: string, permissions: Flags) returns (ok: bool)
      modifies this
      ensures ok == WithRole(old(Contents()), name, permissions).Ok?
      ensures Committed(WithRole(old(Contents()), name, permissions))
    {
      ok := name !in roles;
      if ok {
        roles := roles[name := Role(name, false, permissions)];
      }
    }

    method UpdateRole(name: string, permissions: Option<Flags>) returns (ok: bool)
      modifies this
      ensures ok == UpdatedRole(old(Contents()), name, permissions).Ok?
      ensures Committed(UpdatedRole(old(Contents()), name, permissions))
    {
      ok := name in roles && !roles[name].isBuiltin;
      if ok && permissions.Some? {
        roles := roles[name := roles[name].(permissions := permissions.value)];
      }
    }

    method DeleteRole(name: string) returns (ok: bool)
      modifies this
      ensures ok == WithoutRole(old(Contents()), name).Ok?
      ensures Committed(WithoutRole(old(Contents()), name))
    {
      ok := name in roles && !roles[name].isBuiltin && !InUse(Store(users, roles, assignments), name);
      if ok {
        roles := roles - {name};
      }
    }
  }

  /** The scope check: no scope is seen twice. */
  method ScopesAreUnique(wanted: seq<Wanted>) returns (unique: bool)
    ensures unique == UniqueScopes(wanted)
  {
    var seen: set<Option<string>> := {};
    var i := 0;
    while i < |wanted|
      invariant 0 <= i <= |wanted|
      invariant seen == set j | 0 <= j < i :: ScopeOf(wanted[j])
      invariant UniqueScopes(wanted[..i])
    {
      if ScopeOf(wanted[i]) in seen {
        return false;
      }
      seen := seen + {ScopeOf(wanted[i])};
      i := i + 1;
    }
    assert wanted[..i] == wanted;
    return true;
  }
}
