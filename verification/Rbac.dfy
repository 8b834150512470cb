/** The four use cases that change who has which permission, and the two readers that decide access. */
module Rbac {
  import opened Commits
  import opened PermissionCache
  import opened RbacTables
  import opened Runs
  import opened TimedStore
  import opened Wire

  datatype Outcome = Done | RoleNotFound | PermissionNotFound | NotAssigned | AlreadyAssigned | Raised

  /** What others do at the `i`-th await. */
  type Others = nat -> seq<Step>

  ghost predicate Undisturbed(others: Others) {
    forall i :: others(i) == []
  }

  predicate OfWriter(l: Step, w: nat) {
    (l.List? || l.Delete? || l.Crash?) && l.writer == w
  }

  /** The tables only grow, and writer `w` is where it was. */
  predicate Keeps(s: State, t: State, w: Option<nat>) {
    && |s.tables.roles| <= |t.tables.roles| && |s.tables.permissions| <= |t.tables.permissions|
    && |s.writers| <= |t.writers|
    && (w.Some? && w.value < |s.writers| ==> t.writers[w.value] == s.writers[w.value])
  }

  lemma ForeignKeeps(s: State, l: Step, w: Option<nat>)
    requires w.Some? ==> !OfWriter(l, w.value)
    ensures Keeps(s, Do(s, l), w)
  {
    hide Effective, SetOf, ListsHolders;
  }

  function HolderNumbers(t: Tables, role: nat): set<nat> {
    set x | x in t.userRoles && x.1 == role :: x.0
  }

  function WithoutAll(e: Entries, users: seq<nat>): Entries {
    if users == [] then e else Without(WithoutAll(e, users[..|users| - 1]), PermissionsOf(users[|users| - 1]))
  }

  lemma {:induction false} WithoutAllForgets(e: Entries, users: seq<nat>, k: Key)
    ensures k in WithoutAll(e, users) <==> k in e && !(k.PermissionsOf? && k.user in users)
    ensures k in WithoutAll(e, users) ==> WithoutAll(e, users)[k] == e[k]
  {
    if users != [] {
      WithoutAllForgets(e, users[..|users| - 1], k);
      assert users == users[..|users| - 1] + [users[|users| - 1]];
    }
  }

  predicate RoleExists(t: Tables, role: nat) {
    role < |t.roles| && !t.roles[role].deleted
  }

  predicate PermissionExists(t: Tables, permission: nat) {
    permission < |t.permissions| && !t.permissions[permission].deleted
  }

  /** The role has the permission or not, and nothing else changed. */
  ghost predicate RoleChanged(t: Tables, u: Tables, role: nat, permission: nat, granted: bool) {
    && u.roles == t.roles && u.permissions == t.permissions && u.userRoles == t.userRoles
    && forall x :: x in u.rolePermissions <==> if x == (role, permission) then granted else x in t.rolePermissions
  }

  /** The user has the role or not, and nothing else changed. */
  ghost predicate UserChanged(t: Tables, u: Tables, user: nat, role: nat, granted: bool) {
    && u.roles == t.roles && u.permissions == t.permissions && u.rolePermissions == t.rolePermissions
    && forall x :: x in u.userRoles <==> if x == (user, role) then granted else x in t.userRoles
  }

  /** The cached sets of the role's holders are gone; every other entry is as it was. */
  ghost predicate HoldersDeleted(t: Tables, role: nat, e: Entries, f: Entries) {
    forall k: Key :: if k.PermissionsOf? && (k.user, role) in t.userRoles then k !in f
                else (k in f <==> k in e) && (k in f ==> f[k] == e[k])
  }

  /** The cached set of the user is gone; every other entry is as it was. */
  ghost predicate UserDeleted(user: nat, e: Entries, f: Entries) {
    forall k :: if k == PermissionsOf(user) then k !in f else (k in f <==> k in e) && (k in f ==> f[k] == e[k])
  }

  class RbacUseCases {
    var world: State

    constructor (now: real)
      ensures world == Initial(now)
    {
      world := Initial(now);
    }

    /** While a use case awaits, others make the steps of `schedule` that are possible. */
    method Await(schedule: seq<Step>, w: Option<nat>, ghost before: State)
      requires Reaches(CacheProtocol(), before, world)
      modifies this
      ensures Reaches(CacheProtocol(), before, world) && Keeps(old(world), world, w)
      ensures schedule == [] ==> world == old(world)
    {
      for i := 0 to |schedule|
        invariant Reaches(CacheProtocol(), before, world) && Keeps(old(world), world, w)
        invariant schedule == [] ==> world == old(world)
      {
        if Can(world, schedule[i]) && !(w.Some? && OfWriter(schedule[i], w.value)) {
          hide Valid, Final, Do, Can;
          ForeignKeeps(world, schedule[i], w);
          ReachesStep(CacheProtocol(), before, world, schedule[i]);
          world := Do(world, schedule[i]);
        }
      }
    }

    method Perform(l: Step, ghost before: State)
      requires Reaches(CacheProtocol(), before, world) && Can(world, l)
      modifies this
      ensures Reaches(CacheProtocol(), before, world) && world == Do(old(world), l)
    {
      hide Valid, Final, Do, Can;
      ReachesStep(CacheProtocol(), before, world, l);
      world := Do(world, l);
    }

    /** `get_user_ids_for_role` */
    method ListHolders(role: nat) returns (users: seq<nat>)
      ensures ListsHolders(world.tables, role, users)
    {
      var rest := HolderNumbers(world.tables, role);
      users := [];
      while rest != {}
        invariant forall u: nat :: u in users || u in rest <==> u in HolderNumbers(world.tables, role)
        decreases rest
      {
        var u :| u in rest;
        rest := rest - {u};
        users := users + [u];
      }
      forall u | u in users ensures Holds(world.tables, u, role) {
        assert u in HolderNumbers(world.tables, role);
      }
      forall x | x in world.tables.userRoles && x.1 == role ensures x.0 in users {
        assert x.0 in HolderNumbers(world.tables, role);
      }
    }

    /** The loop that deletes the listed users' keys. */
    method Invalidate(w: nat, users: seq<nat>, others: Others, ghost before: State)
      requires Reaches(CacheProtocol(), before, world) && Active(world, w) && world.writers[w].pc == Deleting(users)
      modifies this
      ensures Reaches(CacheProtocol(), before, world) && w < |world.writers| && world.writers[w].pc == Deleting([])
      ensures Undisturbed(others) ==>
                && world.cache == WithoutAll(old(world.cache), users)
                && world.tables == old(world.tables)
    {
      for i := 0 to |users|
        invariant Reaches(CacheProtocol(), before, world) && Active(world, w)
            && world.writers[w].pc == Deleting(users[i..])
        invariant Undisturbed(others) ==>
                    && world.cache == WithoutAll(old(world.cache), users[..i])
                    && world.tables == old(world.tables)
      {
        hide Valid, Final, SetOf, Effective;
        Await(others(i), Some(w), before);
        assert users[i..][1..] == users[i + 1..] && users[i..][0] == users[i];
        assert users[..i + 1][..i] == users[..i];
        Perform(Delete(w), before);
      }
      assert users[..|users|] == users;
    }

    /** `AssignPermissionToRoleUseCase` and `RevokePermissionFromRoleUseCase`, from the commit on. */
    method ChangeRolePermission(role: nat, permission: nat, granted: bool, commit: CommitFate, others: Others,
        ghost before: State)
      returns (outcome: Outcome, w: nat)
      requires Reaches(CacheProtocol(), before, world) && role < |world.tables.roles|
          && permission < |world.tables.permissions|
      modifies this
      ensures Reaches(CacheProtocol(), before, world)
      ensures outcome == if commit.raised then Raised else Done
      ensures outcome == Done ==> w < |world.writers| && world.writers[w].pc == Deleting([])
      ensures Undisturbed(others) ==>
                && (if commit.applied || !commit.raised
                    then RoleChanged(old(world.tables), world.tables, role, permission, granted)
                    else world.tables == old(world.tables))
                && (if commit.raised then world.cache == old(world.cache)
                    else HoldersDeleted(world.tables, role, old(world.cache), world.cache))
    {
      hide Valid, Final, SetOf, Effective;
      Await(others(0), None, before);
      w := |world.writers|;
      if commit.raised {
        if commit.applied {
          Perform(SetRolePermission(role, permission, granted), before);
          Perform(Crash(w), before);
        }
        return Raised, w;
      }
      Perform(SetRolePermission(role, permission, granted), before);
      Await(others(1), Some(w), before);
      var users := ListHolders(role);
      Perform(List(w, users), before);
      ghost var cache := world.cache;
      Invalidate(w, users, (i: nat) => others(i + 2), before);
      outcome := Done;
      if Undisturbed(others) {
        forall k: Key
          ensures if k.PermissionsOf? && Holds(world.tables, k.user, role) then k !in world.cache
                  else (k in world.cache <==> k in cache) && (k in world.cache ==> world.cache[k] == cache[k])
        {
          WithoutAllForgets(cache, users, k);
        }
      }
    }

    method AssignPermission(role: nat, permission: nat, commit: CommitFate, others: Others) returns (outcome: Outcome)
      modifies this
      ensures Reaches(CacheProtocol(), old(world), world)
      ensures outcome == (
                if !RoleExists(old(world.tables), role) then RoleNotFound
                else if !PermissionExists(old(world.tables), permission) then PermissionNotFound
                else if commit.raised then Raised else Done)
      ensures outcome in {RoleNotFound, PermissionNotFound} ==> world == old(world)
      ensures outcome == Done && Undisturbed(others) ==>
                && RoleChanged(old(world.tables), world.tables, role, permission, true)
                && HoldersDeleted(world.tables, role, old(world.cache), world.cache)
      ensures outcome == Raised && Undisturbed(others) ==>
                && world.cache == old(world.cache)
                && (if commit.applied then RoleChanged(old(world.tables), world.tables, role, permission, true)
                    else world.tables == old(world.tables))
    {
      ReachesRefl(CacheProtocol(), world);
      if !ActiveRole(world.tables, role) {
        return RoleNotFound;
      }
      if !ActivePermission(world.tables, permission) {
        return PermissionNotFound;
      }
      var w;
      outcome, w := ChangeRolePermission(role, permission, true, commit, others, world);
    }

    method RevokePermission(role: nat, permission: nat, commit: CommitFate, others: Others) returns (outcome: Outcome)
      modifies this
      ensures Reaches(CacheProtocol(), old(world), world)
      ensures outcome == (
                if !RoleExists(old(world.tables), role) then RoleNotFound
                else if !PermissionExists(old(world.tables), permission) then PermissionNotFound
                else if (role, permission) !in old(world.tables).rolePermissions then NotAssigned
                else if commit.raised then Raised else Done)
      ensures outcome in {RoleNotFound, PermissionNotFound, NotAssigned} ==> world == old(world)
      ensures outcome == Done && Undisturbed(others) ==>
                && RoleChanged(old(world.tables), world.tables, role, permission, false)
                && HoldersDeleted(world.tables, role, old(world.cache), world.cache)
      ensures outcome == Raised && Undisturbed(others) ==>
                && world.cache == old(world.cache)
                && (if commit.applied then RoleChanged(old(world.tables), world.tables, role, permission, false)
                    else world.tables == old(world.tables))
    {
      ReachesRefl(CacheProtocol(), world);
      if !ActiveRole(world.tables, role) {
        return RoleNotFound;
      }
      if !ActivePermission(world.tables, permission) {
        return PermissionNotFound;
      }
      if (role, permission) !in world.tables.rolePermissions {
        return NotAssigned;
      }
      var w;
      outcome, w := ChangeRolePermission(role, permission, false, commit, others, world);
    }

    /** `AssignRoleUseCase` and `RevokeRoleUseCase`: `user_has_role` goes by the role's name, which is
        unique. */
    method ChangeUserRole(user: nat, role: nat, granted: bool, commit: CommitFate, others: Others)
        returns (outcome: Outcome)
      modifies this
      ensures Reaches(CacheProtocol(), old(world), world)
      ensures outcome == (
                if !RoleExists(old(world.tables), role) then RoleNotFound
                else if granted && (user, role) in old(world.tables).userRoles then AlreadyAssigned
                else if !granted && (user, role) !in old(world.tables).userRoles then NotAssigned
                else if commit.raised then Raised else Done)
      ensures outcome in {RoleNotFound, AlreadyAssigned, NotAssigned} ==> world == old(world)
      ensures outcome == Done && Undisturbed(others) ==>
                && UserChanged(old(world.tables), world.tables, user, role, granted)
                && UserDeleted(user, old(world.cache), world.cache)
      ensures outcome == Raised && Undisturbed(others) ==>
                && world.cache == old(world.cache)
                && (if commit.applied then UserChanged(old(world.tables), world.tables, user, role, granted)
                    else world.tables == old(world.tables))
    {
      hide Valid, Final, SetOf, Effective;
      ReachesRefl(CacheProtocol(), world);
      if !ActiveRole(world.tables, role) {
        return RoleNotFound;
      }
      if granted && Holds(world.tables, user, role) {
        return AlreadyAssigned;
      }
      if !granted && !Holds(world.tables, user, role) {
        return NotAssigned;
      }
      ghost var before := world;
      Await(others(0), None, before);
      var w := |world.writers|;
      if commit.raised {
        if commit.applied {
          Perform(SetUserRole(user, role, granted), before);
          Perform(Crash(w), before);
        }
        return Raised;
      }
      Perform(SetUserRole(user, role, granted), before);
      ghost var cache := world.cache;
      Invalidate(w, [user], (i: nat) => others(i + 1), before);
      assert [user][..0] == [] && WithoutAll(cache, []) == cache;
      outcome := Done;
    }
  }

  datatype User = User(id: Option<nat>, superuser: bool)

  datatype Decision = Granted | Denied | InvalidToken

  /** What the tables say about a user's access. */
  ghost predicate MayAccess(t: Tables, user: User, permission: string) {
    user.superuser || (user.id.Some? && MayUse(t, user.id.value, permission))
  }

  /** The user's cached set, if it is live, is what the tables say. */
  predicate CacheAgrees(t: Tables, e: Entries, now: real, user: User) {
    user.id.Some? && Live(e, PermissionsOf(user.id.value), now) ==>
      && e[PermissionsOf(user.id.value)].value.Names?
      && SetOf(e[PermissionsOf(user.id.value)].value.names) == Effective(t, user.id.value)
  }

  /** The user's live cached set. */
  function CachedNames(e: Entries, id: nat, now: real): Option<seq<string>> {
    match Look(e, PermissionsOf(id), now)
    case Some(Names(names)) => Some(names)
    case _ => None
  }

  class Authorizer {
    const cache: RedisCache
    var tables: Tables

    constructor (cache: RedisCache, tables: Tables)
      ensures this.cache == cache && this.tables == tables
    {
      this.cache, this.tables := cache, tables;
    }

    /** The names the user is decided by: the cached ones, else the queried ones, which are then cached
        for 300 seconds. */
    method PermissionNamesOf(id: nat) returns (names: seq<string>)
      modifies cache`entries
      ensures var k := PermissionsOf(id);
              var cached := Look(old(cache.entries), k, cache.now);
              if cached.Some? && cached.value.Names? then names == cached.value.names
                  && cache.entries == old(cache.entries)
              else SetOf(names) == Effective(tables, id) &&
                   cache.entries == Put(old(cache.entries), k, Names(names), cache.now, 300)
    {
      var cached := cache.Get(PermissionsOf(id));
      if cached.Some? && cached.value.Names? {
        return cached.value.names;
      }
      NamesAreEffective(tables, id);
      names := PermissionNames(tables, id);
      cache.Set(PermissionsOf(id), Names(names), TTL);
    }

    /** `require_permission`: with a cache that agrees with the tables it decides as they do, and leaves
        the cache in agreement for every user. */
    method RequirePermission(user: User, permission: string) returns (decision: Decision)
      modifies cache`entries
      ensures decision == InvalidToken <==> !user.superuser && user.id.None?
      ensures CacheAgrees(tables, old(cache.entries), cache.now, user) ==>
                (decision == Granted <==> MayAccess(tables, user, permission))
      ensures !user.superuser && user.id.Some? ==>
                match CachedNames(old(cache.entries), user.id.value, cache.now)
                case Some(names) => decision == Granted <==> permission in names
                case None => decision == Granted <==> MayUse(tables, user.id.value, permission)
      ensures forall u :: CacheAgrees(tables, old(cache.entries), cache.now, u) ==>
          CacheAgrees(tables, cache.entries, cache.now, u)
      ensures user.superuser || user.id.None? ==> cache.entries == old(cache.entries)
    {
      hide PermissionNames, JoinCount, Effective, MayUse;
      if user.superuser {
        return Granted;
      }
      if user.id.None? {
        return InvalidToken;
      }
      var names := PermissionNamesOf(user.id.value);
      EffectiveIsCounted(tables, user.id.value, permission);
      decision := if permission in names then Granted else Denied;
    }

    /** `has_admin_access`: the other reader and filler of the same key. */
    method HasAdminAccess(user: User) returns (allowed: bool)
      modifies cache`entries
      ensures CacheAgrees(tables, old(cache.entries), cache.now, user) ==>
                (allowed <==> MayAccess(tables, user, "admin:access"))
      ensures !user.superuser && user.id.Some? ==>
                match CachedNames(old(cache.entries), user.id.value, cache.now)
                case Some(names) => allowed <==> "admin:access" in names
                case None => allowed <==> MayUse(tables, user.id.value, "admin:access")
      ensures forall u :: CacheAgrees(tables, old(cache.entries), cache.now, u) ==>
          CacheAgrees(tables, cache.entries, cache.now, u)
      ensures user.superuser || user.id.None? ==> allowed == user.superuser && cache.entries == old(cache.entries)
    {
      hide PermissionNames, JoinCount, Effective, MayUse;
      if user.superuser {
        return true;
      }
      if user.id.None? {
        return false;
      }
      var names := PermissionNamesOf(user.id.value);
      EffectiveIsCounted(tables, user.id.value, "admin:access");
      allowed := "admin:access" in names;
    }
  }

  lemma EffectiveIsCounted(t: Tables, user: nat, name: string)
    ensures name in Effective(t, user) <==> JoinCount(t, user, name) > 0
    ensures name in Effective(t, user) <==> MayUse(t, user, name)
  {
    EffectiveIsGiven(t, user, name);
    NamesAreEffective(t, user);
    QueriesAgree(t, user, name);
    assert name in SetOf(PermissionNames(t, user)) <==> name in PermissionNames(t, user);
  }

  /** When the cache of an attained state agrees with its tables about a user whose deletion is not owed,
      exactly: when no set of the user's is live, or no commit that changed what the user may do came between
      its query and its fill. With no writer left no deletion is owed, so the two decisions above are then
      wrong for exactly the users of a raced fill. */
  lemma CacheAgreesExactly(s: State, user: User)
    requires Attained(s) && user.id.Some?
    ensures var id := user.id.value;
            !Owed(s, id) ==>
              (CacheAgrees(s.tables, s.cache, s.now, user) <==>
               !Live(s.cache, PermissionsOf(id), s.now) || !Raced(s, id))
    ensures Quiescent(s) ==> !Owed(s, user.id.value)
  {
    hide Attained, Effective, SetOf;
    var k := PermissionsOf(user.id.value);
    if Live(s.cache, k, s.now) {
      LiveSetsAreNames(s, user.id.value);
      ServedSetsAreCoherent(s, user.id.value, s.cache[k].value.names);
    }
  }
}
