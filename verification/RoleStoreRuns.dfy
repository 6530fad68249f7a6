/** Safety of the role store over whole runs, and what its operations mean for permissions. */
module RoleStoreRuns {
  import opened Collections
  import opened Permissions
  import opened RoleStore

  datatype Step =
    | CreateUser(username: string, role: Option<string>, account: Account)
    | UpdateUser(username: string, setsPassword: bool, role: Option<string>, active: Option<bool>)
    | DeleteUser(username: string)
    | Assign(username: string, rolename: string, scope: Option<string>)
    | Remove(username: string, rolename: string, scope: Option<string>)
    | SetAssignments(username: string, wanted: seq<Wanted>)
    | CreateRole(name: string, permissions: Flags)
    | UpdateRole(name: string, newPermissions: Option<Flags>)
    | DeleteRole(name: string)

  function Outcome(s: Store, step: Step): Result<Store> {
    match step
    case CreateUser(u, role, account) => WithUser(s, u, role, account)
    case UpdateUser(u, setsPassword, role, active) => UpdatedUser(s, u, setsPassword, role, active)
    case DeleteUser(u) => WithoutUser(s, u)
    case Assign(u, role, scope) => Assigned(s, u, role, scope)
    case Remove(u, role, scope) =>
      var r := Unassigned(s, u, role, scope);
      if r.Err? then Err(r.message) else Ok(if r.value.Some? then r.value.value else s)
    case SetAssignments(u, wanted) => Reassigned(s, u, wanted)
    case CreateRole(name, permissions) => WithRole(s, name, permissions)
    case UpdateRole(name, permissions) => UpdatedRole(s, name, permissions)
    case DeleteRole(name) => WithoutRole(s, name)
  }

  function Next(s: Store, step: Step): Store {
    var r := Outcome(s, step);
    if r.Ok? then r.value else s
  }

  function Run(s: Store, steps: seq<Step>): Store
    decreases |steps|
  {
    if steps == [] then s else Run(Next(s, steps[0]), steps[1..])
  }

  // ---- References and built-in roles ----

  lemma NextIsReferential(s: Store, step: Step)
    requires Referential(s)
    ensures Referential(Next(s, step))
  {
    match step
    case DeleteUser(u) => InFilter(s.assignments, NotOf(u));
    case Remove(u, role, scope) => InFilter(s.assignments, IsNot(Assignment(u, role, scope)));
    case SetAssignments(u, wanted) => InFilter(s.assignments, NotOf(u));
    case DeleteRole(name) =>
      if !InUse(s, name) {
        UnusedRoleIsUnreferenced(s, name);
      }
    case _ =>
  }

  lemma UnusedRoleIsUnreferenced(s: Store, name: string)
    requires !InUse(s, name)
    ensures forall a :: a in s.assignments ==> a.role != name
  {
  }

  /** Every assignment refers to an existing user and an existing role, after any run. */
  lemma {:induction false} ReferencesHold(s: Store, steps: seq<Step>)
    requires Referential(s)
    ensures Referential(Run(s, steps))
    decreases |steps|
  {
    hide Referential, Next;
    if steps != [] {
      NextIsReferential(s, steps[0]);
      ReferencesHold(Next(s, steps[0]), steps[1..]);
    }
  }

  /** A built-in role is never removed and never altered. */
  lemma {:induction false} BuiltinsAreFixed(s: Store, steps: seq<Step>, name: string)
    requires name in s.roles && s.roles[name].isBuiltin
    ensures name in Run(s, steps).roles && Run(s, steps).roles[name] == s.roles[name]
    decreases |steps|
  {
    if steps != [] {
      BuiltinIsKept(s, steps[0], name);
      hide Next;
      BuiltinsAreFixed(Next(s, steps[0]), steps[1..], name);
    }
  }

  lemma BuiltinIsKept(s: Store, step: Step, name: string)
    requires name in s.roles && s.roles[name].isBuiltin
    ensures name in Next(s, step).roles && Next(s, step).roles[name] == s.roles[name]
  {
  }

  /** From a freshly seeded store: after any run the five built-in roles are there, as seeded, and nothing dangles. */
  lemma SeededStoreStaysSafe(s: Store, steps: seq<Step>)
    requires Seeded(s)
    ensures Referential(Run(s, steps))
    ensures BUILTIN_NAMES <= Run(s, steps).roles.Keys
    ensures forall name :: name in BUILTIN_NAMES ==> Run(s, steps).roles[name] == s.roles[name]
  {
    ReferencesHold(s, steps);
    forall name | name in BUILTIN_NAMES
      ensures name in Run(s, steps).roles && Run(s, steps).roles[name] == s.roles[name]
    {
      assert name in s.roles.Keys;
      BuiltinsAreFixed(s, steps, name);
    }
  }

  // ---- Replacing a user's assignments ----

  /** No two rows of the user have the same scope. */
  ghost predicate OneRolePerScope(rows: seq<Assignment>, user: string) {
    forall i, j | 0 <= i < j < |rows| && rows[i].user == user && rows[j].user == user :: rows[i].scope != rows[j].scope
  }

  /**
   * Either nothing changed, or the user's assignments are exactly the wanted ones, one role per scope, and every
   * other user's are as they were, in order.
   */
  lemma SetLeavesExactlyTheWanted(s: Store, username: string, wanted: seq<Wanted>)
    ensures
      var t := Next(s, SetAssignments(username, wanted));
      var done := username in s.users && UniqueScopes(wanted) && RolesExist(wanted, s.roles);
      && (!done ==> t == s)
      && (done ==> t.users == s.users && t.roles == s.roles)
      && (done ==> Filter(t.assignments, NotOf(username)) == Filter(s.assignments, NotOf(username)))
      && (done ==> forall a :: a in t.assignments && a.user == username <==>
            exists i :: 0 <= i < |wanted| && a == Assignment(username, wanted[i].role, ScopeOf(wanted[i])))
      && (done ==> OneRolePerScope(t.assignments, username))
  {
    var t := Next(s, SetAssignments(username, wanted));
    if username in s.users && UniqueScopes(wanted) && RolesExist(wanted, s.roles) {
      var others, rows := Filter(s.assignments, NotOf(username)), Rows(username, wanted);
      InFilter(s.assignments, NotOf(username));
      assert t.assignments == others + rows;
      FilterAppend(others, rows, NotOf(username));
      FilterAll(others, NotOf(username));
      FilterNone(rows, NotOf(username));
      forall a | a in t.assignments && a.user == username
        ensures exists i :: 0 <= i < |wanted| && a == Assignment(username, wanted[i].role, ScopeOf(wanted[i]))
      {
        assert a in rows;
        var i :| 0 <= i < |rows| && rows[i] == a;
      }
      forall i | 0 <= i < |wanted| ensures Assignment(username, wanted[i].role, ScopeOf(wanted[i])) in t.assignments {
        assert rows[i] in t.assignments;
      }
      OnlyNewRows(others, rows, username);
    }
  }

  lemma OnlyNewRows(others: seq<Assignment>, rows: seq<Assignment>, username: string)
    requires forall a :: a in others ==> a.user != username
    requires forall i, j :: 0 <= i < j < |rows| ==> rows[i].scope != rows[j].scope
    ensures OneRolePerScope(others + rows, username)
  {
  }

  // ---- What one operation undoes, and what an update leaves alone ----

  /** Deleting a user just created, with or without a role, leaves the store as it was. */
  lemma DeleteUndoesCreate(s: Store, username: string, role: Option<string>, account: Account)
    requires Referential(s) && WithUser(s, username, role, account).Ok?
    ensures WithoutUser(WithUser(s, username, role, account).value, username) == Ok(s)
  {
    hide Filter;
    var t := WithUser(s, username, role, account).value;
    var added := if role.Some? && role.value != "" then [Assignment(username, role.value, None)] else [];
    FilterDropsTail(s.assignments, added, NotOf(username));
    assert t.users - {username} == s.users;
  }

  lemma FilterDropsTail(rows: seq<Assignment>, added: seq<Assignment>, p: Assignment -> bool)
    requires (forall a :: a in rows ==> p(a)) && forall a :: a in added ==> !p(a)
    ensures Filter(rows + added, p) == rows
  {
    FilterAppend(rows, added, p);
    FilterAll(rows, p);
    FilterNone(added, p);
  }

  /** Removing an assignment just made leaves the store as it was, unless it had been there before. */
  lemma RemoveUndoesAssign(s: Store, username: string, role: string, scope: Option<string>)
    requires Assigned(s, username, role, scope).Ok?
    ensures
      var a, t := Assignment(username, role, scope), Assigned(s, username, role, scope).value;
      && Copies(t.assignments, a) == 1
      && (a in s.assignments ==> t == s)
      && (a !in s.assignments ==> Unassigned(t, username, role, scope) == Ok(Some(s)))
  {
    var a := Assignment(username, role, scope);
    hide Filter;
    if a !in s.assignments {
      CopiesOfAppend(s.assignments, [a], a);
      FilterDropsTail(s.assignments, [a], IsNot(a));
    }
  }

  /** A role just created can be deleted again, and then everything is as it was. */
  lemma DeleteUndoesCreateRole(s: Store, name: string, permissions: Flags)
    requires Referential(s) && WithRole(s, name, permissions).Ok?
    ensures WithoutRole(WithRole(s, name, permissions).value, name) == Ok(s)
  {
    var t := WithRole(s, name, permissions).value;
    assert forall i :: 0 <= i < |s.assignments| ==> s.assignments[i] in s.assignments;
    assert t.roles - {name} == s.roles;
  }

  /** Updating a user's role makes it the reported global role; local rows and other users' rows stay, in order. */
  lemma UpdateSetsTheGlobalRole(s: Store, username: string, role: string, setsPassword: bool, active: Option<bool>)
    requires Referential(s) && UpdatedUser(s, username, setsPassword, Some(role), active).Ok?
    ensures
      var t := UpdatedUser(s, username, setsPassword, Some(role), active).value;
      && Referential(t) && GlobalRole(t, username) == Some(s.roles[role])
      && Filter(t.assignments, NotGlobalOf(username)) == Filter(s.assignments, NotGlobalOf(username))
      && t.roles == s.roles
  {
    NextIsReferential(s, UpdateUser(username, setsPassword, Some(role), active));
    UpdatedRows(s.assignments, username, role);
  }

  /** Spelled out: an empty location name asks for the global scope, any other for that location. */
  lemma SetScopes(s: Store, username: string, wanted: seq<Wanted>, a: Assignment)
    requires username in s.users && UniqueScopes(wanted) && RolesExist(wanted, s.roles) && a.user == username
    ensures a in Next(s, SetAssignments(username, wanted)).assignments <==>
      exists w :: w in wanted && a.role == w.role && a.scope == if w.scope == Some("") then None else w.scope
  {
    SetLeavesExactlyTheWanted(s, username, wanted);
    if w :| w in wanted && a.role == w.role && a.scope == if w.scope == Some("") then None else w.scope {
      var i :| 0 <= i < |wanted| && wanted[i] == w;
      assert a == Assignment(username, wanted[i].role, ScopeOf(wanted[i]));
    }
  }

  /** When each operation raises. */
  lemma RaisesIff(s: Store, step: Step)
    requires Referential(s)
    ensures Outcome(s, step).Err? <==>
      match step
      case CreateUser(u, role, _) => u in s.users || (role.Some? && role.value != "" && role.value !in s.roles)
      case UpdateUser(u, setsPassword, role, _) =>
        u !in s.users || (setsPassword && s.users[u].oidcLinked) || (role.Some? && role.value !in s.roles)
      case DeleteUser(u) => u !in s.users
      case Assign(u, role, scope) =>
        u !in s.users || role !in s.roles || multiset(s.assignments)[Assignment(u, role, scope)] > 1
      case Remove(u, role, scope) =>
        u in s.users && role in s.roles && multiset(s.assignments)[Assignment(u, role, scope)] > 1
      case SetAssignments(u, wanted) =>
        u !in s.users || (exists w :: w in wanted && w.role !in s.roles) ||
        (exists i, j :: 0 <= i < j < |wanted| && ScopeOf(wanted[i]) == ScopeOf(wanted[j]))
      case CreateRole(name, _) => name in s.roles
      case UpdateRole(name, _) => name !in s.roles || s.roles[name].isBuiltin
      case DeleteRole(name) =>
        name !in s.roles || s.roles[name].isBuiltin || (exists a :: a in s.assignments && a.role == name)
  {
    match step
    case SetAssignments(u, wanted) => MissingRole(wanted, s.roles);
    case DeleteRole(name) =>
      if a :| a in s.assignments && a.role == name {
        var i :| 0 <= i < |s.assignments| && s.assignments[i] == a;
      } else {
        assert forall i :: 0 <= i < |s.assignments| ==> s.assignments[i] in s.assignments;
      }
    case _ =>
  }

  lemma MissingRole(wanted: seq<Wanted>, roles: map<string, Role>)
    ensures RolesExist(wanted, roles) <==> forall w :: w in wanted ==> w.role in roles
  {
    assert forall i :: 0 <= i < |wanted| ==> wanted[i] in wanted;
  }

  /** A created user has the given account and just the named role, globally; nobody else is touched. */
  lemma CreateStores(s: Store, username: string, role: Option<string>, account: Account)
    requires WithUser(s, username, role, account).Ok?
    ensures
      var t := WithUser(s, username, role, account).value;
      && username in t.users && t.users[username] == account && t.users - {username} == s.users && t.roles == s.roles
      && t.assignments ==
           s.assignments + (if role.None? || role == Some("") then [] else [Assignment(username, role.value, None)])
  {
    assert WithUser(s, username, role, account).value.users - {username} == s.users;
  }

  /** A deleted user is gone with all assignments; every other user keeps account and assignments, in order. */
  lemma DeleteRemovesTheUser(s: Store, username: string, a: Assignment)
    requires WithoutUser(s, username).Ok?
    ensures
      var t := WithoutUser(s, username).value;
      && t.users == s.users - {username} && t.roles == s.roles
      && Copies(t.assignments, a) == if a.user == username then 0 else Copies(s.assignments, a)
  {
    FilterKeepsCounts(s.assignments, NotOf(username), a);
  }

  /** An update sets the active flag if it is given one, and no other part of any account. */
  lemma UpdateSetsTheFlag(s: Store, username: string, setsPassword: bool, role: Option<string>, active: Option<bool>)
    requires UpdatedUser(s, username, setsPassword, role, active).Ok?
    ensures
      var t := UpdatedUser(s, username, setsPassword, role, active).value;
      var was := s.users[username];
      && t.users.Keys == s.users.Keys && t.users - {username} == s.users - {username} && t.roles == s.roles
      && t.users[username] ==
           Account(was.oidcLinked, if active.Some? then active.value else was.active, was.isService)
      && (role.None? ==> t.assignments == s.assignments)
  {
    var t := UpdatedUser(s, username, setsPassword, role, active).value;
    assert t.users - {username} == s.users - {username};
  }

  /** Removing an assignment removes that one and no other; without it nothing happens. */
  lemma RemoveTakesOnlyThatRow(s: Store, username: string, role: string, scope: Option<string>, b: Assignment)
    requires Referential(s) && Outcome(s, Remove(username, role, scope)).Ok?
    ensures
      var t := Next(s, Remove(username, role, scope));
      && t.users == s.users && t.roles == s.roles
      && Copies(t.assignments, b) == if b == Assignment(username, role, scope) then 0 else Copies(s.assignments, b)
  {
    var a := Assignment(username, role, scope);
    FilterKeepsCounts(s.assignments, IsNot(a), b);
    assert Copies(s.assignments, a) > 0 <==> a in s.assignments;
  }

  /** A created role is a custom one with the given permissions; an update replaces just its permissions, if given. */
  lemma RolesStorePermissions(s: Store, name: string, permissions: Flags, newPermissions: Option<Flags>)
    ensures WithRole(s, name, permissions).Ok? ==>
      WithRole(s, name, permissions).value ==
        Store(s.users, s.roles[name := Role(name, false, permissions)], s.assignments)
    ensures UpdatedRole(s, name, newPermissions).Ok? ==>
      var t := UpdatedRole(s, name, newPermissions).value;
      && name in s.roles && t.users == s.users && t.assignments == s.assignments
      && t.roles == s.roles[name := Role(s.roles[name].name, s.roles[name].isBuiltin,
           if newPermissions.Some? then newPermissions.value else s.roles[name].permissions)]
  {
    if name in s.roles {
      assert s.roles[name := s.roles[name]] == s.roles;
    }
  }

  function NotGlobalOf(user: string): Assignment -> bool {
    (a: Assignment) => !(a.user == user && a.scope.None?)
  }

  lemma UpdatedTail(rows: seq<Assignment>, user: string, role: string)
    requires rows != [] && !(rows[0].user == user && rows[0].scope.None?)
    ensures WithGlobalRole(rows, user, role) == [rows[0]] + WithGlobalRole(rows[1..], user, role)
  {
  }

  lemma {:induction false} UpdatedRows(rows: seq<Assignment>, user: string, role: string)
    ensures
      var after := WithGlobalRole(rows, user, role);
      && Filter(after, NotGlobalOf(user)) == Filter(rows, NotGlobalOf(user))
      && FirstGlobal(after, user).Some? && after[FirstGlobal(after, user).value].role == role
  {
    var a := Assignment(user, role, None);
    if rows == [] {
      assert WithGlobalRole(rows, user, role) == [a];
    } else if rows[0].user == user && rows[0].scope.None? {
      assert WithGlobalRole(rows, user, role) == [a] + rows[1..];
    } else {
      UpdatedRows(rows[1..], user, role);
      UpdatedTail(rows, user, role);
    }
  }

  // ---- Duplicate rows ----

  /** No (user, role, scope) occurs twice: what the table's UNIQUE constraint is for. */
  ghost predicate NoCopies(rows: seq<Assignment>) {
    forall a :: Copies(rows, a) <= 1
  }

  lemma {:induction false} FilterKeepsCounts(rows: seq<Assignment>, p: Assignment -> bool, a: Assignment)
    ensures Copies(Filter(rows, p), a) == if p(a) then Copies(rows, a) else 0
  {
    if rows != [] {
      assert rows == [rows[0]] + rows[1..];
      FilterKeepsCounts(rows[1..], p, a);
    }
  }

  lemma CopiesOfUpdate(rows: seq<Assignment>, i: nat, b: Assignment, a: Assignment)
    requires i < |rows|
    ensures Copies(rows[i := b], a) == Copies(rows, a) - (if rows[i] == a then 1 else 0) + (if b == a then 1 else 0)
  {
  }

  lemma CopiesOfAppend(rows: seq<Assignment>, more: seq<Assignment>, a: Assignment)
    ensures Copies(rows + more, a) == Copies(rows, a) + Copies(more, a)
  {
  }

  /** A user row that the UNIQUE constraint cannot see: scope NULL never equals NULL in SQL. */
  ghost predicate AlreadyHeld(s: Store, username: string, role: string) {
    var rows := s.assignments;
    var first := FirstGlobal(rows, username);
    first.Some? && rows[first.value].role != role && Assignment(username, role, None) in rows
  }

  /**
   * update_user keeps the rows free of copies exactly when it does not move the user's first global role onto a
   * global role the user already holds in another row.
   */
  lemma UpdateKeepsRowsUniqueIff(s: Store, username: string, role: string)
    requires Referential(s) && NoCopies(s.assignments) && username in s.users && role in s.roles
    ensures NoCopies(Next(s, UpdateUser(username, false, Some(role), None)).assignments) <==>
      !AlreadyHeld(s, username, role)
  {
    var rows, target := s.assignments, Assignment(username, role, None);
    var after := WithGlobalRole(rows, username, role);
    var first := FirstGlobal(rows, username);
    assert Copies(rows, target) <= 1;
    match first {
      case None =>
        assert target !in rows;
        forall a ensures Copies(after, a) <= 1 {
          CopiesOfAppend(rows, [target], a);
          assert Copies(rows, a) <= 1;
        }
      case Some(i) =>
        CopiesOfUpdate(rows, i, target, target);
        forall a | a != target ensures Copies(after, a) <= 1 {
          CopiesOfUpdate(rows, i, target, a);
          assert Copies(rows, a) <= 1;
        }
    }
  }

  /** After such an update both assigning and removing that global role raise, so neither changes anything. */
  lemma CopiedRowBlocksAssignAndRemove(s: Store, username: string, role: string)
    requires Referential(s) && NoCopies(s.assignments) && username in s.users && role in s.roles
    requires AlreadyHeld(s, username, role)
    ensures
      var t := Next(s, UpdateUser(username, false, Some(role), None));
      && Outcome(t, Assign(username, role, None)).Err?
      && Outcome(t, Remove(username, role, None)).Err?
  {
    var rows, target := s.assignments, Assignment(username, role, None);
    CopiesOfUpdate(rows, FirstGlobal(rows, username).value, target, target);
  }

  /** A run from any seeded store that ends with one row stored twice, after which assigning the role raises. */
  lemma DuplicateIsReachable(s: Store, account: Account)
    requires Seeded(s)
    ensures
      var steps := [CreateUser("ann", Some("viewer"), account), Assign("ann", "editor", None),
                    UpdateUser("ann", false, Some("editor"), None)];
      var t := Run(s, steps);
      && Copies(t.assignments, Assignment("ann", "editor", None)) == 2 && !NoCopies(t.assignments)
      && Outcome(t, Assign("ann", "editor", None)).Err? && Outcome(t, Remove("ann", "editor", None)).Err?
  {
    var create, assign := CreateUser("ann", Some("viewer"), account), Assign("ann", "editor", None);
    var update := UpdateUser("ann", false, Some("editor"), None);
    ThreeSteps(s, create, assign, update);
    var viewer, editor := Assignment("ann", "viewer", None), Assignment("ann", "editor", None);
    assert "viewer" in s.roles.Keys && "editor" in s.roles.Keys;
    var s1 := Next(s, create);
    assert s1.assignments == [viewer];
    var s2 := Next(s1, assign);
    assert s2.assignments == [viewer, editor];
    hide Run;
    assert Next(s2, update).assignments == [editor, editor];
  }

  lemma ThreeSteps(s: Store, a: Step, b: Step, c: Step)
    ensures Run(s, [a, b, c]) == Next(Next(Next(s, a), b), c)
  {
    hide Next;
    assert [a, b, c][1..] == [b, c] && [b, c][1..] == [c] && [c][1..] == [];
    assert Run(Next(s, a), [b, c]) == Run(Next(Next(s, a), b), [c]);
  }

  lemma AppendKeepsRowsUnique(rows: seq<Assignment>, b: Assignment)
    requires NoCopies(rows) && b !in rows
    ensures NoCopies(rows + [b])
  {
    forall a ensures Copies(rows + [b], a) <= 1 {
      CopiesOfAppend(rows, [b], a);
      assert Copies(rows, a) <= 1;
    }
  }

  lemma FilterKeepsRowsUnique(rows: seq<Assignment>, p: Assignment -> bool)
    requires NoCopies(rows)
    ensures NoCopies(Filter(rows, p))
  {
    forall a ensures Copies(Filter(rows, p), a) <= 1 {
      FilterKeepsCounts(rows, p, a);
      assert Copies(rows, a) <= 1;
    }
  }

  lemma ReplacedRowsAreUnique(rows: seq<Assignment>, u: string, wanted: seq<Wanted>)
    requires NoCopies(rows) && UniqueScopes(wanted)
    ensures NoCopies(Filter(rows, NotOf(u)) + Rows(u, wanted))
  {
    hide UniqueScopes, Rows;
    forall a ensures Copies(Filter(rows, NotOf(u)) + Rows(u, wanted), a) <= 1 {
      CopiesOfAppend(Filter(rows, NotOf(u)), Rows(u, wanted), a);
      FilterKeepsCounts(rows, NotOf(u), a);
      RowsAreUnique(u, wanted, a);
      assert Copies(rows, a) <= 1;
    }
  }

  /** Every operation but update_user keeps the rows free of copies. */
  lemma OtherStepsKeepRowsUnique(s: Store, step: Step)
    requires Referential(s) && NoCopies(s.assignments) && !step.UpdateUser?
    ensures NoCopies(Next(s, step).assignments)
  {
    hide NoCopies;
    match step
    case CreateUser(u, role, account) =>
      assert s.assignments + [] == s.assignments;
      if u !in s.users && role.Some? {
        AppendKeepsRowsUnique(s.assignments, Assignment(u, role.value, None));
      }
    case DeleteUser(u) => FilterKeepsRowsUnique(s.assignments, NotOf(u));
    case Assign(u, role, scope) =>
      if Copies(s.assignments, Assignment(u, role, scope)) == 0 {
        AppendKeepsRowsUnique(s.assignments, Assignment(u, role, scope));
      }
    case Remove(u, role, scope) => FilterKeepsRowsUnique(s.assignments, IsNot(Assignment(u, role, scope)));
    case SetAssignments(u, wanted) =>
      if UniqueScopes(wanted) {
        ReplacedRowsAreUnique(s.assignments, u, wanted);
      }
    case _ =>
  }

  /** The step is no update_user onto a global role the user already holds in another row. */
  ghost predicate Safe(s: Store, step: Step) {
    step.UpdateUser? && step.role.Some? ==> !AlreadyHeld(s, step.username, step.role.value)
  }

  ghost predicate SafeRun(s: Store, steps: seq<Step>)
    decreases |steps|
  {
    steps != [] ==> Safe(s, steps[0]) && SafeRun(Next(s, steps[0]), steps[1..])
  }

  lemma SafeStepKeepsRowsUnique(s: Store, step: Step)
    requires Referential(s) && NoCopies(s.assignments) && Safe(s, step)
    ensures NoCopies(Next(s, step).assignments)
  {
    hide NoCopies, AlreadyHeld;
    if !step.UpdateUser? {
      OtherStepsKeepRowsUnique(s, step);
    } else if step.role.Some? && step.username in s.users && step.role.value in s.roles {
      UpdateKeepsRowsUniqueIff(s, step.username, step.role.value);
    }
  }

  /** Over any run of safe steps no (user, role, scope) is stored twice, so assign and remove never raise for it. */
  lemma {:induction false} SafeRunKeepsRowsUnique(s: Store, steps: seq<Step>)
    requires Referential(s) && NoCopies(s.assignments) && SafeRun(s, steps)
    ensures NoCopies(Run(s, steps).assignments)
    decreases |steps|
  {
    if steps != [] {
      hide Referential, NoCopies, Safe, Next;
      SafeStepKeepsRowsUnique(s, steps[0]);
      NextIsReferential(s, steps[0]);
      SafeRunKeepsRowsUnique(Next(s, steps[0]), steps[1..]);
    }
  }

  lemma {:induction false} RowsAreUnique(u: string, wanted: seq<Wanted>, a: Assignment)
    requires UniqueScopes(wanted)
    ensures Copies(Rows(u, wanted), a) <= 1 && (Copies(Rows(u, wanted), a) > 0 ==> a.user == u)
    decreases |wanted|
  {
    if wanted != [] {
      var n := |wanted| - 1;
      RowsAreUnique(u, wanted[..n], a);
      var last := Assignment(u, wanted[n].role, ScopeOf(wanted[n]));
      assert Rows(u, wanted) == Rows(u, wanted[..n]) + [last];
      assert last !in Rows(u, wanted[..n]);
      CopiesOfAppend(Rows(u, wanted[..n]), [last], a);
    }
  }

  // ---- Roles at a location ----

  /** A role applies where it is assigned: globally, or at that location if one is named. */
  lemma RolesAtLocation(s: Store, username: string, location: Option<string>, r: Role)
    requires Referential(s)
    ensures r in RolesForLocation(s, username, location) <==>
      exists a :: a in s.assignments && s.roles[a.role] == r && a.user == username &&
        (a.scope.None? || (location.Some? && location != Some("") && a.scope == location))
  {
    if username in s.users {
      InRolesForLocation(s, username, location, r);
    }
  }

  lemma InRolesForLocation(s: Store, username: string, location: Option<string>, r: Role)
    requires Referential(s) && username in s.users
    ensures r in RolesForLocation(s, username, location) <==>
      exists a :: a in s.assignments && AppliesAt(username, location)(a) && s.roles[a.role] == r
  {
    var rows := Filter(s.assignments, AppliesAt(username, location));
    InFilter(s.assignments, AppliesAt(username, location));
    if a :| a in s.assignments && AppliesAt(username, location)(a) && s.roles[a.role] == r {
      assert a in rows;
      var i :| 0 <= i < |rows| && rows[i] == a;
      assert RolesOf(rows, s.roles)[i] == r;
    }
    if r in RolesOf(rows, s.roles) {
      var i :| 0 <= i < |rows| && s.roles[rows[i].role] == r;
      assert rows[i] in rows;
    }
  }

  /** At any location a user is enabled at least what the user's global roles enable. */
  lemma LocationEnablesAtLeastGlobal(s: Store, username: string, location: Option<string>, all: set<string>)
    requires Referential(s)
    ensures Enabled(RolesForLocation(s, username, None), all) <= Enabled(RolesForLocation(s, username, location), all)
  {
    if username in s.users {
      forall r | r in RolesForLocation(s, username, None) ensures r in RolesForLocation(s, username, location) {
        InRolesForLocation(s, username, None, r);
        InRolesForLocation(s, username, location, r);
        var a :| a in s.assignments && AppliesAt(username, None)(a) && s.roles[a.role] == r;
        assert AppliesAt(username, location)(a);
      }
      MergeIsMonotone(RolesForLocation(s, username, None), RolesForLocation(s, username, location), all);
    }
  }

  /** Setting assignments and then asking for a location's roles gives back the wanted global and local roles. */
  lemma SetThenGet(s: Store, username: string, wanted: seq<Wanted>, location: string, r: Role)
    requires Referential(s) && username in s.users && location != ""
    requires UniqueScopes(wanted) && RolesExist(wanted, s.roles)
    ensures
      var t := Next(s, SetAssignments(username, wanted));
      && Referential(t)
      && (r in RolesForLocation(t, username, Some(location)) <==>
            exists i :: 0 <= i < |wanted| && s.roles[wanted[i].role] == r &&
              (ScopeOf(wanted[i]).None? || ScopeOf(wanted[i]) == Some(location)))
  {
    var t := Next(s, SetAssignments(username, wanted));
    NextIsReferential(s, SetAssignments(username, wanted));
    SetLeavesExactlyTheWanted(s, username, wanted);
    InRolesForLocation(t, username, Some(location), r);
    forall i | 0 <= i < |wanted| && s.roles[wanted[i].role] == r &&
               (ScopeOf(wanted[i]).None? || ScopeOf(wanted[i]) == Some(location))
      ensures exists a :: a in t.assignments && AppliesAt(username, Some(location))(a) && t.roles[a.role] == r
    {
      var a := Assignment(username, wanted[i].role, ScopeOf(wanted[i]));
      assert a in t.assignments && a.user == username;
    }
  }

  /** The global role a login reports is one of the roles that apply everywhere. */
  lemma GlobalRoleAppliesEverywhere(s: Store, username: string, location: Option<string>)
    requires Referential(s) && username in s.users
    ensures GlobalRole(s, username).Some? ==> GlobalRole(s, username).value in RolesForLocation(s, username, location)
    ensures GlobalRole(s, username).None? <==> RolesForLocation(s, username, None) == []
  {
    var first := FirstGlobal(s.assignments, username);
    InFilter(s.assignments, AppliesAt(username, None));
    if first.Some? {
      var a := s.assignments[first.value];
      assert a in s.assignments && AppliesAt(username, location)(a) && AppliesAt(username, None)(a);
      InRolesForLocation(s, username, location, s.roles[a.role]);
    } else {
      forall a | a in s.assignments ensures !AppliesAt(username, None)(a) {
        var i :| 0 <= i < |s.assignments| && s.assignments[i] == a;
      }
      FilterNone(s.assignments, AppliesAt(username, None));
    }
  }
}
