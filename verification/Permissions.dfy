/** Merging the permissions of several roles for one location. */
module Permissions {
  import opened Collections

  /** The permissions column: a JSON object, text holding one (None when it does not decode), or neither. */
  datatype Flags = Dict(flags: map<string, bool>) | Text(decoded: Option<map<string, bool>>) | Neither

  datatype Role = Role(name: string, isBuiltin: bool, permissions: Flags)

  const LAUNCHER_PERMISSIONS := {
    "LAUNCH_PIPELINE_EXECUTION", "LAUNCH_PIPELINE_REEXECUTION", "TERMINATE_PIPELINE_EXECUTION",
    "LAUNCH_PARTITION_BACKFILL", "CANCEL_PARTITION_BACKFILL"
  }

  const ADMIN_EDITS := {"admin_edit_users", "admin_edit_roles", "admin_edit_oidc", "admin_edit_code_locations"}
  const ADMIN_DENIED := {"admin_view_users", "admin_edit_users"}

  /** What a built-in role enables among `all` permissions; None for a name that is no built-in role. */
  function BuiltinEnabled(name: string, all: set<string>): Option<set<string>> {
    if name == "catalog_viewer" || name == "viewer" then Some({})
    else if name == "launcher" then Some(LAUNCHER_PERMISSIONS)
    else if name == "editor" || name == "admin" then Some(all)
    else None
  }

  /** A custom role's flags, None when they cannot be read. */
  function CustomFlags(role: Role): Option<map<string, bool>> {
    match role.permissions
    case Dict(flags) => Some(flags)
    case Text(decoded) => decoded
    case Neither => None
  }

  /** The permissions one role turns on. */
  function Granted(role: Role, all: set<string>): set<string> {
    if role.isBuiltin then
      match BuiltinEnabled(role.name, all)
      case None => {}
      case Some(enabled) => enabled
    else
      match CustomFlags(role)
      case None => {}
      case Some(flags) => set p | p in all && p in flags && flags[p]
  }

  /** The admin portal opens to the built-in admin role and to custom roles flagged ADMIN_EDIT_USERS. */
  predicate IsAdmin(role: Role) {
    if role.isBuiltin then role.name == "admin"
    else
      match CustomFlags(role)
      case None => false
      case Some(flags) => "ADMIN_EDIT_USERS" in flags && flags["ADMIN_EDIT_USERS"]
  }

  /** The permission names of the core enum are upper case, those of the admin portal lower case. */
  predicate Catalogue(all: set<string>) {
    LAUNCHER_PERMISSIONS <= all && all !! ADMIN_EDITS + ADMIN_DENIED
  }

  /** What a list of roles enables: the union of their grants, and the admin edits if one of them is an admin. */
  function Enabled(roles: seq<Role>, all: set<string>): set<string> {
    (set i, p | 0 <= i < |roles| && p in Granted(roles[i], all) :: p) +
    (if AnyAdmin(roles) then ADMIN_EDITS else {})
  }

  function EnabledIn(result: map<string, bool>): set<string> {
    set p | p in result && result[p]
  }

  /** One role's grants are switched on in `merged`; permissions outside it are ignored. */
  method MergeRole(role: Role, merged: map<string, bool>, all: set<string>) returns (r: map<string, bool>)
    requires merged.Keys == all && Catalogue(all)
    ensures r.Keys == all && EnabledIn(r) == EnabledIn(merged) + Granted(role, all)
  {
    r := merged;
    var on: set<string> := {};
    if role.isBuiltin {
      var enabled := BuiltinEnabled(role.name, all);
      if enabled.None? {
        return;
      }
      on := enabled.value;
    } else {
      var flags := CustomFlags(role);
      if flags.None? {
        return;
      }
      on := set p | p in flags.value && flags.value[p];
    }
    var todo := on;
    while todo != {}
      invariant todo <= on && r.Keys == all
      invariant forall p :: p in all ==> r[p] == (merged[p] || p in on - todo)
    {
      var p :| p in todo;
      todo := todo - {p};
      if p in r {
        r := r[p := true];
      }
    }
  }

  /** All permissions off, then every role in turn. */
  method MergeRoles(roles: seq<Role>, all: set<string>) returns (merged: map<string, bool>)
    requires Catalogue(all)
    ensures merged.Keys == all && EnabledIn(merged) == GrantedByFirst(roles, |roles|, all)
  {
    merged := map p | p in all :: false;
    var i := 0;
    while i < |roles|
      invariant 0 <= i <= |roles| && merged.Keys == all
      invariant EnabledIn(merged) == GrantedByFirst(roles, i, all)
    {
      hide EnabledIn, GrantedByFirst;
      merged := MergeRole(roles[i], merged, all);
      GrantedByNext(roles, i, all);
      i := i + 1;
    }
  }

  predicate AnyAdmin(roles: seq<Role>) {
    exists i :: 0 <= i < |roles| && IsAdmin(roles[i])
  }

  function AdminEntries(admin: bool): map<string, bool> {
    if admin then map p | p in ADMIN_EDITS :: true else map p | p in ADMIN_DENIED :: false
  }

  /** The merged map: every permission with its flag, and the admin portal's entries. */
  method ResolvePermissionsForLocation(roles: seq<Role>, all: set<string>) returns (result: map<string, bool>)
    requires Catalogue(all)
    ensures EnabledIn(result) == Enabled(roles, all)
    ensures result.Keys == all + (if roles == [] then {} else if AnyAdmin(roles) then ADMIN_EDITS else ADMIN_DENIED)
  {
    if roles == [] {
      result := map p | p in all :: false;
      return;
    }
    var merged := MergeRoles(roles, all);
    result := merged + AdminEntries(AnyAdmin(roles));
    WithAdminEntries(merged, AnyAdmin(roles));
  }

  lemma WithAdminEntries(merged: map<string, bool>, admin: bool)
    requires Catalogue(merged.Keys)
    ensures EnabledIn(merged + AdminEntries(admin)) == EnabledIn(merged) + (if admin then ADMIN_EDITS else {})
  {
  }

  ghost function GrantedByFirst(roles: seq<Role>, n: nat, all: set<string>): set<string>
    requires n <= |roles|
  {
    set i, p | 0 <= i < n && p in Granted(roles[i], all) :: p
  }

  lemma GrantedByNext(roles: seq<Role>, n: nat, all: set<string>)
    requires n < |roles|
    ensures GrantedByFirst(roles, n + 1, all) == GrantedByFirst(roles, n, all) + Granted(roles[n], all)
  {
  }

  // ---- The merge is a union ----

  lemma InEnabled(roles: seq<Role>, all: set<string>, p: string)
    ensures p in Enabled(roles, all) <==>
      exists role :: role in roles && (p in Granted(role, all) || (IsAdmin(role) && p in ADMIN_EDITS))
  {
  }

  /** Only which roles occur matters, not their order or how often, and more roles never enable less. */
  lemma MergeIsMonotone(a: seq<Role>, b: seq<Role>, all: set<string>)
    requires forall role :: role in a ==> role in b
    ensures Enabled(a, all) <= Enabled(b, all)
    ensures (forall role :: role in b ==> role in a) ==> Enabled(a, all) == Enabled(b, all)
  {
    hide Enabled, Granted, IsAdmin;
    forall p ensures p in Enabled(a, all) ==> p in Enabled(b, all)
             ensures (forall role :: role in b ==> role in a) && p in Enabled(b, all) ==> p in Enabled(a, all)
    {
      InEnabled(a, all, p);
      InEnabled(b, all, p);
    }
  }

  lemma MergeIsUnion(a: seq<Role>, b: seq<Role>, all: set<string>)
    ensures Enabled(a + b, all) == Enabled(a, all) + Enabled(b, all)
  {
    hide Enabled, Granted, IsAdmin;
    forall p ensures p in Enabled(a + b, all) <==> p in Enabled(a, all) + Enabled(b, all) {
      InEnabled(a, all, p);
      InEnabled(b, all, p);
      InEnabled(a + b, all, p);
    }
  }

  /** A custom role can open every admin edit with one flag, and no other flag of it opens any. */
  lemma OneFlagOpensTheAdminPortal(role: Role, all: set<string>, p: string)
    requires Catalogue(all) && !role.isBuiltin && p in ADMIN_EDITS
    ensures p in Enabled([role], all) <==>
      CustomFlags(role).Some? && "ADMIN_EDIT_USERS" in CustomFlags(role).value &&
      CustomFlags(role).value["ADMIN_EDIT_USERS"]
  {
    InEnabled([role], all, p);
    assert role in [role];
  }

  // ---- What single roles enable ----

  /** The built-in roles, and nothing for a built-in role of any other name. */
  lemma BuiltinRoleEnables(name: string, permissions: Flags, all: set<string>)
    requires Catalogue(all)
    ensures Enabled([Role(name, true, permissions)], all) ==
      if name == "launcher" then
        {"LAUNCH_PIPELINE_EXECUTION", "LAUNCH_PIPELINE_REEXECUTION", "TERMINATE_PIPELINE_EXECUTION",
         "LAUNCH_PARTITION_BACKFILL", "CANCEL_PARTITION_BACKFILL"}
      else if name == "editor" then all
      else if name == "admin" then
        all + {"admin_edit_users", "admin_edit_roles", "admin_edit_oidc", "admin_edit_code_locations"}
      else {}
  {
    var role := Role(name, true, permissions);
    assert AnyAdmin([role]) <==> name == "admin" by {
      assert [role][0] == role;
    }
    forall p ensures p in Enabled([role], all) <==> p in Granted(role, all) || (name == "admin" && p in ADMIN_EDITS) {
      InEnabled([role], all, p);
      assert role in [role];
    }
  }

  /** A custom role's permission is on exactly when it is known and its flag is set. */
  lemma CustomRoleEnables(name: string, permissions: Flags, all: set<string>, p: string)
    requires Catalogue(all) && p in all
    ensures p in Enabled([Role(name, false, permissions)], all) <==>
      || (permissions.Dict? && p in permissions.flags && permissions.flags[p])
      || (permissions.Text? && permissions.decoded.Some? &&
            p in permissions.decoded.value && permissions.decoded.value[p])
  {
    var role := Role(name, false, permissions);
    InEnabled([role], all, p);
    assert role in [role];
  }

  /** A list enables what some role of it enables alone. */
  lemma EnabledBySome(roles: seq<Role>, all: set<string>, p: string)
    ensures p in Enabled(roles, all) <==> exists role :: role in roles && p in Enabled([role], all)
  {
    hide Enabled, Granted, IsAdmin;
    InEnabled(roles, all, p);
    forall role ensures p in Enabled([role], all) <==>
      p in Granted(role, all) || (IsAdmin(role) && p in ADMIN_EDITS)
    {
      InEnabled([role], all, p);
      assert role in [role];
    }
  }

  /** The admin portal's entries: four set for an admin, two cleared for anybody else. */
  lemma AdminEntriesAre()
    ensures AdminEntries(true) == map["admin_edit_users" := true, "admin_edit_roles" := true,
                                      "admin_edit_oidc" := true, "admin_edit_code_locations" := true]
    ensures AdminEntries(false) == map["admin_view_users" := false, "admin_edit_users" := false]
  {
  }
}
