/** Roles, permissions and their junction tables, and the two queries that decide access. */
module RbacTables {
  datatype PermissionRow = PermissionRow(name: string, deleted: bool)

  datatype RoleRow = RoleRow(name: string, deleted: bool)

  /** An id is a row's position. `rolePermissions` holds (role, permission) and `userRoles`
      (user, role). */
  datatype Tables = Tables(
    permissions: seq<PermissionRow>, roles: seq<RoleRow>, rolePermissions: set<(nat, nat)>, userRoles: set<(nat, nat)>)

  /** The foreign keys. */
  ghost predicate KeysExist(t: Tables) {
    && (forall x | x in t.rolePermissions :: x.0 < |t.roles| && x.1 < |t.permissions|)
    && (forall x | x in t.userRoles :: x.1 < |t.roles|)
  }

  predicate ActivePermission(t: Tables, p: nat) {
    p < |t.permissions| && !t.permissions[p].deleted
  }

  predicate ActiveRole(t: Tables, r: nat) {
    r < |t.roles| && !t.roles[r].deleted
  }

  /** Junction row `x` gives the user a permission: role and permission active, role held. */
  predicate Gives(t: Tables, user: nat, x: (nat, nat)) {
    x in t.rolePermissions && (user, x.0) in t.userRoles && ActiveRole(t, x.0) && ActivePermission(t, x.1)
  }

  /** `get_user_permissions`: the distinct permissions joined to the user, here in order of id. */
  function UserPermissions(t: Tables, user: nat, n: nat): seq<nat>
    requires n <= |t.permissions|
  {
    if n == 0 then []
    else
      UserPermissions(t, user, n - 1) +
      if exists x | x in t.rolePermissions :: x.1 == n - 1 && Gives(t, user, x) then [n - 1] else []
  }

  lemma {:induction false} UserPermissionsAre(t: Tables, user: nat, n: nat, p: nat)
    requires n <= |t.permissions|
    ensures p in UserPermissions(t, user, n) <==> p < n && exists r: nat :: Gives(t, user, (r, p))
    ensures forall i, j | 0 <= i < j < |UserPermissions(t, user, n)| ::
              UserPermissions(t, user, n)[i] < UserPermissions(t, user, n)[j] < n
  {
    if n > 0 {
      UserPermissionsAre(t, user, n - 1, p);
      var front := UserPermissions(t, user, n - 1);
      forall i | 0 <= i < |front| ensures front[i] < n - 1 {
        UserPermissionsAre(t, user, n - 1, front[i]);
      }
      assert p == n - 1 ==>
          ((exists x | x in t.rolePermissions :: x.1 == p && Gives(t, user, x)) <==>
              exists r: nat :: Gives(t, user, (r, p))) by {
        if r: nat :| Gives(t, user, (r, p)) {
          assert (r, p) in t.rolePermissions;
        }
        if x :| x in t.rolePermissions && x.1 == p && Gives(t, user, x) {
          assert x == (x.0, p);
        }
      }
    }
  }

  function PermissionNames(t: Tables, user: nat): seq<string> {
    var ids := UserPermissions(t, user, |t.permissions|);
    seq(|ids|, i requires 0 <= i < |ids| => if ids[i] < |t.permissions| then t.permissions[ids[i]].name else "")
  }

  /** The rows `user_has_permission` counts. */
  function JoinRows(t: Tables, user: nat, name: string): set<(nat, nat)> {
    set x | x in t.rolePermissions && Gives(t, user, x) && t.permissions[x.1].name == name
  }

  function JoinCount(t: Tables, user: nat, name: string): nat {
    |JoinRows(t, user, name)|
  }

  /** The two queries agree in every database state: a name is among the listed permissions exactly when
      the join count is positive. */
  lemma QueriesAgree(t: Tables, user: nat, name: string)
    ensures name in PermissionNames(t, user) <==> JoinCount(t, user, name) > 0
  {
    var n := |t.permissions|;
    var ids, names := UserPermissions(t, user, n), PermissionNames(t, user);
    if name in names {
      var i :| 0 <= i < |names| && names[i] == name;
      UserPermissionsAre(t, user, n, ids[i]);
      var r: nat :| Gives(t, user, (r, ids[i]));
      assert (r, ids[i]) in JoinRows(t, user, name);
    }
    if JoinCount(t, user, name) > 0 {
      var x :| x in JoinRows(t, user, name);
      UserPermissionsAre(t, user, n, x.1);
      assert Gives(t, user, (x.0, x.1));
      var i :| 0 <= i < |ids| && ids[i] == x.1;
      assert names[i] == name;
    }
  }

  /** The names of the permissions a user currently has. */
  function Effective(t: Tables, user: nat): set<string> {
    set x | x in t.rolePermissions && Gives(t, user, x) :: t.permissions[x.1].name
  }

  /** The user holds a role, not deleted, that has a permission of the name, not deleted. */
  ghost predicate MayUse(t: Tables, user: nat, name: string) {
    exists role: nat, permission: nat ::
      && (user, role) in t.userRoles && (role, permission) in t.rolePermissions
      && role < |t.roles| && !t.roles[role].deleted
      && permission < |t.permissions| && !t.permissions[permission].deleted && t.permissions[permission].name == name
  }

  lemma EffectiveIsGiven(t: Tables, user: nat, name: string)
    ensures name in Effective(t, user) <==> MayUse(t, user, name)
  {
    if name in Effective(t, user) {
      var x :| x in t.rolePermissions && Gives(t, user, x) && t.permissions[x.1].name == name;
      assert (x.0, x.1) == x;
    }
    if MayUse(t, user, name) {
      var role: nat, permission: nat :|
        && (user, role) in t.userRoles && (role, permission) in t.rolePermissions
        && role < |t.roles| && !t.roles[role].deleted
        && permission < |t.permissions| && !t.permissions[permission].deleted && t.permissions[permission].name == name;
      assert Gives(t, user, (role, permission));
    }
  }

  function SetOf(names: seq<string>): set<string> {
    set n | n in names
  }

  lemma NamesAreEffective(t: Tables, user: nat)
    ensures SetOf(PermissionNames(t, user)) == Effective(t, user)
  {
    forall name ensures name in PermissionNames(t, user) <==> name in Effective(t, user) {
      QueriesAgree(t, user, name);
      if name in Effective(t, user) {
        var x :| x in t.rolePermissions && Gives(t, user, x) && t.permissions[x.1].name == name;
        assert x in JoinRows(t, user, name);
      }
      if JoinCount(t, user, name) > 0 {
        var x :| x in JoinRows(t, user, name);
      }
    }
  }

  function WithRolePermission(t: Tables, role: nat, permission: nat, granted: bool): Tables {
    t.(rolePermissions := if granted then t.rolePermissions + {(role, permission)}
        else t.rolePermissions - {(role, permission)})
  }

  function WithUserRole(t: Tables, user: nat, role: nat, granted: bool): Tables {
    t.(userRoles := if granted then t.userRoles + {(user, role)} else t.userRoles - {(user, role)})
  }

  /** Changing a role's permissions changes nothing for users without the role. */
  lemma RoleChangeIsLocal(t: Tables, role: nat, permission: nat, granted: bool, user: nat)
    requires (user, role) !in t.userRoles
    ensures Effective(WithRolePermission(t, role, permission, granted), user) == Effective(t, user)
  {
    var u := WithRolePermission(t, role, permission, granted);
    forall x: (nat, nat) ensures x in u.rolePermissions && Gives(u, user, x) <==>
        x in t.rolePermissions && Gives(t, user, x) {
    }
    SameGives(t, u, user);
  }

  lemma UserChangeIsLocal(t: Tables, user: nat, role: nat, granted: bool, other: nat)
    requires other != user
    ensures Effective(WithUserRole(t, user, role, granted), other) == Effective(t, other)
  {
    SameGives(t, WithUserRole(t, user, role, granted), other);
  }

  /** New roles and permissions are held by nobody yet. */
  lemma NewRowsAreLocal(t: Tables, role: RoleRow, permission: PermissionRow, user: nat)
    requires KeysExist(t)
    ensures Effective(t.(roles := t.roles + [role]), user) == Effective(t, user)
    ensures Effective(t.(permissions := t.permissions + [permission]), user) == Effective(t, user)
  {
    SameGives(t, t.(roles := t.roles + [role]), user);
    SameGives(t, t.(permissions := t.permissions + [permission]), user);
  }

  lemma SameGives(t: Tables, u: Tables, user: nat)
    requires forall x: (nat, nat) :: Gives(t, user, x) <==> Gives(u, user, x)
    requires |t.permissions| <= |u.permissions| && forall p | 0 <= p < |t.permissions| ::
        u.permissions[p].name == t.permissions[p].name
    ensures Effective(t, user) == Effective(u, user)
  {
    forall name ensures name in Effective(t, user) <==> name in Effective(u, user) {
      if name in Effective(t, user) {
        var x :| x in t.rolePermissions && Gives(t, user, x) && t.permissions[x.1].name == name;
        assert Gives(u, user, x) && x in u.rolePermissions;
      }
      if name in Effective(u, user) {
        var x :| x in u.rolePermissions && Gives(u, user, x) && u.permissions[x.1].name == name;
        assert Gives(t, user, x) && x in t.rolePermissions;
      }
    }
  }
}
