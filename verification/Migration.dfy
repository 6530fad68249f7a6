/** Revisions 003 and 004: users.role_id moves into user_role_assignments, and back. */
module Migration {
  import opened Collections
  import opened RoleStore

  /** users.role_id of every user; None is NULL. */
  type Column = map<string, Option<string>>

  function GlobalOf(user: string): Assignment -> bool {
    (a: Assignment) => a.user == user && a.scope.None?
  }

  /** One global row per user with a role_id, in the order of the users. */
  function Copied(users: seq<string>, column: Column): seq<Assignment>
    requires forall u :: u in users ==> u in column
  {
    if users == [] then []
    else
      var u := users[|users| - 1];
      Copied(users[..|users| - 1], column) + (if column[u].Some? then [Assignment(u, column[u].value, None)] else [])
  }

  /** The users revision 004 selects: a role_id, and no global row yet. */
  function Lacks(column: Column, rows: seq<Assignment>): string -> bool {
    u => u in column && column[u].Some? && FirstGlobal(rows, u).None?
  }

  /** The assignments after the upgrade to 004. */
  function Upgraded(users: seq<string>, column: Column, rows: seq<Assignment>): seq<Assignment>
    requires forall u :: u in users ==> u in column
  {
    InFilter(users, Lacks(column, rows));
    rows + Copied(Filter(users, Lacks(column, rows)), column)
  }

  /**
   * A column the downgrade from 004 may produce: NULL without a global row, otherwise the role of one of them. The
   * query has LIMIT 1 and no order, so it may be any of them.
   */
  ghost predicate Restores(users: seq<string>, rows: seq<Assignment>, column: Column) {
    && (forall u :: u in column <==> u in users)
    && (forall u :: u in column ==> IsRoleOf(rows, u, column[u]))
  }

  ghost predicate IsRoleOf(rows: seq<Assignment>, user: string, role: Option<string>) {
    match role
    case None => Filter(rows, GlobalOf(user)) == []
    case Some(name) => Assignment(user, name, None) in rows
  }

  /** The role id the backend reads off a user's assignments. */
  function GlobalRoleId(rows: seq<Assignment>, user: string): Option<string> {
    match FirstGlobal(rows, user)
    case None => None
    case Some(i) => Some(rows[i].role)
  }

  // ---- The revisions ----

  /** roleId is None while the column does not exist, assignments while the table does not. */
  class Database {
    var users: seq<string>
    var roleId: Option<Column>
    var assignments: Option<seq<Assignment>>

    /** Ids are unique, and the column has a value for exactly the users. */
    ghost predicate Valid()
      reads this
    {
      NoDup(users) && (roleId.Some? ==> forall u :: u in roleId.value <==> u in users)
    }

    constructor (users: seq<string>, column: Column)
      requires NoDup(users) && forall u :: u in column <==> u in users
      ensures Valid() && this.users == users && roleId == Some(column) && assignments == None
    {
      this.users, roleId, assignments := users, Some(column), None;
    }

    method Upgrade003()
      requires Valid() && roleId.Some? && assignments.None?
      modifies this
      ensures Valid() && users == old(users) && roleId == old(roleId)
      ensures assignments == Some(Copied(users, roleId.value))
    {
      var table: seq<Assignment> := [];
      var i := 0;
      while i < |users|
        invariant 0 <= i <= |users|
        invariant table == Copied(users[..i], roleId.value)
        modifies {}
      {
        var u := users[i];
        assert users[..i + 1][..i] == users[..i];
        if roleId.value[u].Some? {
          table := table + [Assignment(u, roleId.value[u].value, None)];
        }
        i := i + 1;
      }
      assert users[..i] == users;
      assignments := Some(table);
    }

    method Upgrade004()
      requires Valid() && roleId.Some? && assignments.Some?
      modifies this
      ensures Valid() && users == old(users) && roleId == None
      ensures assignments == Some(Upgraded(users, old(roleId.value), old(assignments.value)))
    {
      var column, before := roleId.value, assignments.value;
      var selected := Filter(users, Lacks(column, before));
      InFilter(users, Lacks(column, before));
      assert before + Copied(selected[..0], column) == before;
      var i := 0;
      while i < |selected|
        invariant 0 <= i <= |selected|
        invariant users == old(users) && roleId == old(roleId)
        invariant assignments == Some(before + Copied(selected[..i], column))
      {
        assert selected[i] in selected && selected[..i + 1][..i] == selected[..i];
        CopiedNext(before, selected, column, i);
        assignments := Some(assignments.value + [Assignment(selected[i], column[selected[i]].value, None)]);
        i := i + 1;
      }
      assert selected[..i] == selected;
      roleId := None;
    }

    /** Adds the column back and fills it from the global rows, in no particular order. */
    method Downgrade004()
      requires Valid() && roleId.None? && assignments.Some?
      modifies this
      ensures Valid() && users == old(users) && assignments == old(assignments)
      ensures roleId.Some? && Restores(users, assignments.value, roleId.value)
    {
      var rows := assignments.value;
      var column: Column := map[];
      var i := 0;
      while i < |users|
        invariant 0 <= i <= |users|
        invariant Restores(users[..i], rows, column)
        modifies {}
      {
        var u := users[i];
        var globals := Filter(rows, GlobalOf(u));
        InFilter(rows, GlobalOf(u));
        assert users[..i + 1] == users[..i] + [u];
        if globals == [] {
          column := column[u := None];
        } else {
          assert globals[0] in globals;
          var a: Assignment :| a in globals;
          assert a == Assignment(u, a.role, None);
          column := column[u := Some(a.role)];
        }
        i := i + 1;
      }
      assert users[..i] == users;
      roleId := Some(column);
    }

    method Downgrade003()
      requires Valid() && assignments.Some?
      modifies this
      ensures Valid() && users == old(users) && roleId == old(roleId) && assignments == None
    {
      assignments := None;
    }
  }

  // ---- Lookups and global rows ----

  /** The backend's lookup finds the first of the user's global rows. */
  lemma {:induction false} FirstGlobalIsFirstOfFilter(rows: seq<Assignment>, u: string)
    ensures FirstGlobal(rows, u).None? <==> Filter(rows, GlobalOf(u)) == []
    ensures FirstGlobal(rows, u).Some? ==> Filter(rows, GlobalOf(u))[0] == rows[FirstGlobal(rows, u).value]
  {
    if rows != [] {
      FirstGlobalIsFirstOfFilter(rows[1..], u);
    }
  }

  /** What one user's copied rows are: one with the user's role_id, or none. */
  function RowOf(u: string, role: Option<string>): seq<Assignment> {
    if role.Some? then [Assignment(u, role.value, None)] else []
  }

  lemma RowGlobals(v: string, role: Option<string>, u: string)
    ensures Filter(RowOf(v, role), GlobalOf(u)) == if u == v then RowOf(v, role) else []
  {
  }

  lemma CopiedSnoc(init: seq<string>, v: string, column: Column)
    requires v in column && forall u :: u in init ==> u in column
    ensures Copied(init + [v], column) == Copied(init, column) + RowOf(v, column[v])
  {
    assert (init + [v])[..|init|] == init;
  }

  lemma {:induction false} CopiedGlobals(users: seq<string>, column: Column, u: string)
    requires NoDup(users) && forall v :: v in users ==> v in column
    ensures Filter(Copied(users, column), GlobalOf(u)) == if u in users then RowOf(u, column[u]) else []
    decreases |users|
  {
    if users != [] {
      hide Filter, Copied, RowOf;
      var n := |users| - 1;
      var init, last := users[..n], users[n];
      assert users == init + [last] && last !in init;
      CopiedGlobals(init, column, u);
      CopiedSnoc(init, last, column);
      FilterAppend(Copied(init, column), RowOf(last, column[last]), GlobalOf(u));
      RowGlobals(last, column[last], u);
    }
  }

  lemma CopiedNext(rows: seq<Assignment>, selected: seq<string>, column: Column, i: nat)
    requires i < |selected| && forall v :: v in selected ==> v in column && column[v].Some?
    ensures rows + Copied(selected[..i + 1], column) ==
      rows + Copied(selected[..i], column) + [Assignment(selected[i], column[selected[i]].value, None)]
  {
    assert selected[i] in selected && selected[..i + 1][..i] == selected[..i];
  }

  // ---- The upgrade ----

  /**
   * From any database at revision 003 or later: a user's global rows stay as they are, and a user without one gets
   * the row of the role_id.
   */
  lemma UpgradeGlobals(users: seq<string>, column: Column, rows: seq<Assignment>, u: string)
    requires NoDup(users) && u in users && forall v :: v in users ==> v in column
    ensures
      var before := Filter(rows, GlobalOf(u));
      var after := Upgraded(users, column, rows);
      && rows <= after
      && Filter(after, GlobalOf(u)) == (if before != [] then before else RowOf(u, column[u]))
      && GlobalRoleId(after, u) == (if before != [] then GlobalRoleId(rows, u) else column[u])
  {
    var selected := Filter(users, Lacks(column, rows));
    InFilter(users, Lacks(column, rows));
    FilterNoDup(users, Lacks(column, rows));
    CopiedGlobals(selected, column, u);
    FilterAppend(rows, Copied(selected, column), GlobalOf(u));
    FirstGlobalIsFirstOfFilter(rows, u);
    FirstGlobalIsFirstOfFilter(Upgraded(users, column, rows), u);
  }

  /**
   * From any database at revision 002, 003 followed by 004 gives every user with a role_id exactly one global row,
   * with that role, and the others none; the backend then reads back the old role_id. Nothing is copied twice.
   */
  lemma MigrationKeepsRoles(users: seq<string>, column: Column, u: string)
    requires NoDup(users) && u in users && forall v :: v in users ==> v in column
    ensures
      var rows := Upgraded(users, column, Copied(users, column));
      && rows == Copied(users, column)
      && Filter(rows, GlobalOf(u)) == RowOf(u, column[u])
      && GlobalRoleId(rows, u) == column[u]
  {
    var rows := Copied(users, column);
    forall v | v in users ensures !Lacks(column, rows)(v) {
      CopiedGlobals(users, column, v);
      FirstGlobalIsFirstOfFilter(rows, v);
    }
    FilterNone(users, Lacks(column, rows));
    CopiedGlobals(users, column, u);
    FirstGlobalIsFirstOfFilter(rows, u);
    UpgradeGlobals(users, column, rows, u);
  }

  // ---- The downgrade ----

  /** The condition under which a user's role_id survives: every global row has it, and NULL means there is none. */
  ghost predicate Agrees(column: Column, rows: seq<Assignment>, u: string)
    requires u in column
  {
    forall a :: a in Filter(rows, GlobalOf(u)) ==> column[u] == Some(a.role)
  }

  /** The downgrade always has a result: the roles the backend would read. */
  lemma DowngradeExists(users: seq<string>, rows: seq<Assignment>)
    ensures Restores(users, rows, map u | u in users :: GlobalRoleId(rows, u))
  {
    forall u | u in users ensures IsRoleOf(rows, u, GlobalRoleId(rows, u)) {
      FirstGlobalIsFirstOfFilter(rows, u);
    }
  }

  /** Going to 004 and back gives a user the old role_id, whichever rows the downgrade picks, exactly when Agrees. */
  lemma DowngradeRestoresIff(users: seq<string>, column: Column, rows: seq<Assignment>, u: string)
    requires NoDup(users) && u in users && forall v :: v in users ==> v in column
    ensures (forall back: Column :: Restores(users, Upgraded(users, column, rows), back) ==> back[u] == column[u]) <==>
      Agrees(column, rows, u)
  {
    var after := Upgraded(users, column, rows);
    UpgradeGlobals(users, column, rows, u);
    if Agrees(column, rows, u) {
      forall back: Column | Restores(users, after, back) ensures back[u] == column[u] {
        RestoredRole(after, u, back[u], column[u]);
      }
    } else {
      var a :| a in Filter(rows, GlobalOf(u)) && column[u] != Some(a.role);
      var back := AnyRowMayBePicked(users, after, u, a);
    }
  }

  /** Each of a user's global rows is picked by some downgrade. */
  lemma AnyRowMayBePicked(users: seq<string>, rows: seq<Assignment>, u: string, a: Assignment) returns (back: Column)
    requires u in users && a in Filter(rows, GlobalOf(u))
    ensures Restores(users, rows, back) && back[u] == Some(a.role)
  {
    back := (map v | v in users :: GlobalRoleId(rows, v))[u := Some(a.role)];
    DowngradeExists(users, rows);
    InFilter(rows, GlobalOf(u));
    assert a == Assignment(u, a.role, None);
  }

  lemma RestoredRole(rows: seq<Assignment>, u: string, role: Option<string>, expected: Option<string>)
    requires IsRoleOf(rows, u, role)
    requires forall a :: a in Filter(rows, GlobalOf(u)) ==> expected == Some(a.role)
    requires Filter(rows, GlobalOf(u)) == [] ==> expected.None?
    ensures role == expected
  {
    InFilter(rows, GlobalOf(u));
    if role.Some? {
      assert Assignment(u, role.value, None) in Filter(rows, GlobalOf(u));
    }
  }

  /** From revision 002 up to 004 and down again, every role_id is restored. */
  lemma RoundTripRestoresColumn(users: seq<string>, column: Column, back: Column)
    requires NoDup(users) && forall u :: u in column <==> u in users
    requires Restores(users, Upgraded(users, column, Copied(users, column)), back)
    ensures back == column
  {
    forall u | u in users ensures back[u] == column[u] {
      MigrationKeepsRoles(users, column, u);
      RestoredRole(Copied(users, column), u, back[u], column[u]);
    }
  }

  /** From any database at 004 down to 003 and up again, the assignments are the same. */
  lemma RoundTripKeepsAssignments(users: seq<string>, rows: seq<Assignment>, back: Column)
    requires Restores(users, rows, back)
    ensures Upgraded(users, back, rows) == rows
  {
    forall u | u in users ensures !Lacks(back, rows)(u) {
      FirstGlobalIsFirstOfFilter(rows, u);
      InFilter(rows, GlobalOf(u));
    }
    FilterNone(users, Lacks(back, rows));
  }

  /** A role changed in only one of the two places between 003 and 004 is lost: 004 keeps the row and drops role_id. */
  lemma StaleRoleIdIsDropped()
    ensures
      var column := map["ann" := Some("admin")];
      var rows := [Assignment("ann", "viewer", None)];
      Upgraded(["ann"], column, rows) == rows && !Agrees(column, rows, "ann")
  {
  }

  /** An upgrade adds only global rows of users with a role_id, for that role. */
  lemma {:induction false} CopiedRows(users: seq<string>, column: Column, a: Assignment)
    requires forall v :: v in users ==> v in column
    ensures a in Copied(users, column) <==>
      a.user in users && a.scope.None? && column[a.user] == Some(a.role)
    decreases |users|
  {
    if users != [] {
      var n := |users| - 1;
      assert users == users[..n] + [users[n]];
      CopiedRows(users[..n], column, a);
    }
  }

  lemma UpgradeAddsOnly(users: seq<string>, column: Column, rows: seq<Assignment>, a: Assignment)
    requires forall v :: v in users ==> v in column
    ensures a in Upgraded(users, column, rows) <==>
      a in rows ||
      (a.user in users && a.scope.None? && column[a.user] == Some(a.role) && Filter(rows, GlobalOf(a.user)) == [])
  {
    InFilter(users, Lacks(column, rows));
    CopiedRows(Filter(users, Lacks(column, rows)), column, a);
    FirstGlobalIsFirstOfFilter(rows, a.user);
  }
}
