/** The per-user permission cache as a step machine: writers commit, list a role's holders and delete
    their keys one by one; readers query and fill in separate steps; anything may crash. */
module PermissionCache {
  import opened RbacTables
  import opened Runs
  import opened TimedStore
  import opened Wire

  const TTL := 300

  datatype WriterPc = Listing(role: nat) | Deleting(users: seq<nat>)

  /** A use case after its commit. */
  datatype Writer = Writer(pc: WriterPc, crashed: bool)

  /** A request that found no cached set and queried one; `version` is the database it read. */
  datatype Reader = Reader(user: nat, names: seq<string>, version: nat, at: real, stored: bool)

  /** How a cached set got there: read from database `version` at `at`, stored at `storedAt` when the
      database was `stored`. */
  datatype Fill = Fill(version: nat, at: real, stored: nat, storedAt: real)

  /** `history` holds every committed state of the tables and since when it held. */
  datatype Version = Version(tables: Tables, since: real)

  datatype State = State(
    tables: Tables, cache: Entries, now: real, writers: seq<Writer>, readers: seq<Reader>,
    fills: map<nat, Fill>, history: seq<Version>)

  datatype Step =
    | SetRolePermission(role: nat, permission: nat, granted: bool)
    | SetUserRole(user: nat, role: nat, granted: bool)
    | CreateRole(roleRow: RoleRow)
    | CreatePermission(permissionRow: PermissionRow)
    | List(writer: nat, users: seq<nat>)
    | Delete(writer: nat)
    | Crash(writer: nat)
    | Fetch(user: nat, names: seq<string>)
    | Store(reader: nat)
    | Wait(seconds: real)

  predicate Holds(t: Tables, user: nat, role: nat) {
    (user, role) in t.userRoles
  }

  /** `get_user_ids_for_role` */
  predicate ListsHolders(t: Tables, role: nat, users: seq<nat>) {
    && (forall u | u in users :: Holds(t, u, role))
    && (forall x | x in t.userRoles && x.1 == role :: x.0 in users)
  }

  predicate Active(s: State, w: nat) {
    w < |s.writers| && !s.writers[w].crashed
  }

  predicate Can(s: State, l: Step) {
    match l
    case SetRolePermission(r, p, _) => r < |s.tables.roles| && p < |s.tables.permissions|
    case SetUserRole(_, r, _) => r < |s.tables.roles|
    case CreateRole(_) => true
    case CreatePermission(_) => true
    case List(w, users) => Active(s, w) && s.writers[w].pc.Listing?
        && ListsHolders(s.tables, s.writers[w].pc.role, users)
    case Delete(w) => Active(s, w) && s.writers[w].pc.Deleting? && s.writers[w].pc.users != []
    case Crash(w) => Active(s, w)
    case Fetch(user, names) => s.history != [] && SetOf(names) == Effective(s.tables, user)
    case Store(r) => r < |s.readers| && !s.readers[r].stored && s.history != []
    case Wait(d) => d >= 0.0
  }

  function Commit(s: State, t: Tables): State {
    s.(tables := t, history := s.history + [Version(t, s.now)])
  }

  function WithWriter(s: State, w: nat, pc: WriterPc): State
    requires w < |s.writers|
  {
    s.(writers := s.writers[w := s.writers[w].(pc := pc)])
  }

  function Do(s: State, l: Step): State {
    if !Can(s, l) then s else
    match l
    case SetRolePermission(r, p, granted) =>
      Commit(s, WithRolePermission(s.tables, r, p, granted)).(writers := s.writers + [Writer(Listing(r), false)])
    case SetUserRole(u, r, granted) =>
      Commit(s, WithUserRole(s.tables, u, r, granted)).(writers := s.writers + [Writer(Deleting([u]), false)])
    case CreateRole(row) => Commit(s, s.tables.(roles := s.tables.roles + [row]))
    case CreatePermission(row) => Commit(s, s.tables.(permissions := s.tables.permissions + [row]))
    case List(w, users) => WithWriter(s, w, Deleting(users))
    case Delete(w) =>
      var users := s.writers[w].pc.users;
      WithWriter(s, w, Deleting(users[1..])).(cache := Without(s.cache, PermissionsOf(users[0])))
    case Crash(w) => s.(writers := s.writers[w := s.writers[w].(crashed := true)])
    case Fetch(user, names) =>
      s.(readers := s.readers + [Reader(user, names, |s.history| - 1, s.now, false)])
    case Store(r) =>
      var x := s.readers[r];
      s.(readers := s.readers[r := x.(stored := true)],
         cache := Put(s.cache, PermissionsOf(x.user), Names(x.names), s.now, TTL),
         fills := s.fills[x.user := Fill(x.version, x.at, |s.history| - 1, s.now)])
    case Wait(d) => s.(now := s.now + d)
  }

  ghost function CacheProtocol(): Machine<State, Step> {
    Machine((s, l) => Can(s, l), (s, l) => Do(s, l))
  }

  function Initial(now: real): State {
    var t := Tables([], [], {}, {});
    State(t, map[], now, [], [], map[], [Version(t, now)])
  }

  /** Some writer still owes the user's key a deletion: it has not listed the holders of a role the user
      holds, or has the user left on its list. A crashed writer owes it for good. */
  ghost predicate Owed(s: State, user: nat) {
    exists w :: 0 <= w < |s.writers| && OwedBy(s, user, w)
  }

  predicate OwedBy(s: State, user: nat, w: nat)
    requires w < |s.writers|
  {
    match s.writers[w].pc
    case Listing(role) => Holds(s.tables, user, role)
    case Deleting(users) => user in users
  }

  /** Database `v` was the current one at instant `at`. */
  predicate Current(s: State, v: nat, at: real) {
    && v < |s.history| && s.history[v].since <= at
    && (v + 1 < |s.history| ==> at <= s.history[v + 1].since)
  }

  ghost predicate HistoryOk(s: State) {
    && s.history != [] && s.history[|s.history| - 1].tables == s.tables
    && (forall i | 0 <= i < |s.history| :: s.history[i].since <= s.now)
  }

  ghost predicate ReaderOk(s: State, r: nat)
    requires r < |s.readers|
  {
    var x := s.readers[r];
    && Current(s, x.version, x.at) && x.at <= s.now
    && SetOf(x.names) == Effective(s.history[x.version].tables, x.user)
  }

  /** What a cached set says, and how it got there. */
  ghost predicate EntryOk(s: State, user: nat) {
    PermissionsOf(user) in s.cache ==>
      && user in s.fills
      && var e, f := s.cache[PermissionsOf(user)], s.fills[user];
         && e.value.Names? && e.expires == Some(f.storedAt + TTL as real)
         && Current(s, f.version, f.at) && f.at <= f.storedAt <= s.now
         && f.version <= f.stored < |s.history|
         && SetOf(e.value.names) == Effective(s.history[f.version].tables, user)
  }

  /** What the user has now is what the user had when the cached set was stored, or its deletion is owed. */
  ghost predicate Coherent(s: State, user: nat) {
    PermissionsOf(user) in s.cache && user in s.fills && s.fills[user].stored < |s.history| ==>
      || Effective(s.history[s.fills[user].stored].tables, user) == Effective(s.tables, user)
      || Owed(s, user)
  }

  ghost predicate Inv(s: State) {
    && KeysExist(s.tables) && HistoryOk(s)
    && (forall r | 0 <= r < |s.readers| :: ReaderOk(s, r))
    && (forall user: nat :: EntryOk(s, user))
    && (forall user: nat :: Coherent(s, user))
  }

  lemma DoKeepsHistory(s: State, l: Step)
    requires Inv(s) && Can(s, l)
    ensures KeysExist(Do(s, l).tables) && HistoryOk(Do(s, l))
    ensures |s.history| <= |Do(s, l).history| && Do(s, l).history[..|s.history|] == s.history
    ensures s.now <= Do(s, l).now && (|Do(s, l).history| > |s.history| ==> Do(s, l).history[|s.history|].since == s.now)
  {
  }

  lemma StaysCurrent(s: State, t: State, v: nat, at: real)
    requires HistoryOk(s) && Current(s, v, at) && at <= s.now
    requires |s.history| <= |t.history| && t.history[..|s.history|] == s.history
    requires |t.history| > |s.history| ==> t.history[|s.history|].since == s.now
    ensures Current(t, v, at) && t.history[v] == s.history[v]
  {
    assert t.history[v] == t.history[..|s.history|][v];
    if v + 1 < |s.history| {
      assert t.history[v + 1] == t.history[..|s.history|][v + 1];
    }
  }

  lemma DoKeepsReader(s: State, l: Step, r: nat)
    requires Inv(s) && Can(s, l) && r < |Do(s, l).readers|
    ensures ReaderOk(Do(s, l), r)
  {
    hide Effective, Owed, KeysExist, Coherent, EntryOk;
    DoKeepsHistory(s, l);
    ReaderFrame(s, l, r);
    if r < |s.readers| {
      var x := s.readers[r];
      assert ReaderOk(s, r);
      StaysCurrent(s, Do(s, l), x.version, x.at);
    }
  }

  lemma ReaderFrame(s: State, l: Step, r: nat)
    requires Can(s, l) && r < |Do(s, l).readers|
    ensures r < |s.readers| ==> Do(s, l).readers[r].(stored := false) == s.readers[r].(stored := false)
    ensures r >= |s.readers| ==>
              && l.Fetch? && r == |s.readers|
              && Do(s, l) == s.(readers := s.readers + [Reader(l.user, l.names, |s.history| - 1, s.now, false)])
  {
  }

  lemma EntryFrame(s: State, l: Step, user: nat)
    requires Can(s, l) && !(l.Store? && s.readers[l.reader].user == user)
    ensures var t, k := Do(s, l), PermissionsOf(user);
            && (k in t.cache ==> k in s.cache && t.cache[k] == s.cache[k])
            && (user in s.fills ==> user in t.fills && t.fills[user] == s.fills[user])
  {
  }

  lemma DoKeepsEntry(s: State, l: Step, user: nat)
    requires Inv(s) && Can(s, l)
    ensures EntryOk(Do(s, l), user)
  {
    hide Effective, Owed, KeysExist, Coherent;
    var t := Do(s, l);
    DoKeepsHistory(s, l);
    if l.Store? && s.readers[l.reader].user == user {
      assert ReaderOk(s, l.reader);
    } else {
      EntryFrame(s, l, user);
      assert EntryOk(s, user);
      if PermissionsOf(user) in t.cache {
        var f := s.fills[user];
        StaysCurrent(s, t, f.version, f.at);
      }
    }
  }

  /** A step leaves the user's effective set alone or leaves a writer owing its deletion. */
  lemma ChangesAreOwed(s: State, l: Step, user: nat)
    requires KeysExist(s.tables) && Can(s, l)
    ensures Effective(Do(s, l).tables, user) == Effective(s.tables, user) || Owed(Do(s, l), user)
  {
    hide Effective;
    var t := Do(s, l);
    if l.SetRolePermission? {
      if Holds(s.tables, user, l.role) {
        assert OwedBy(t, user, |s.writers|);
      } else {
        RoleChangeIsLocal(s.tables, l.role, l.permission, l.granted, user);
      }
    } else if l.SetUserRole? {
      if l.user == user {
        assert OwedBy(t, user, |s.writers|);
      } else {
        UserChangeIsLocal(s.tables, l.user, l.role, l.granted, user);
      }
    } else if l.CreateRole? {
      NewRowsAreLocal(s.tables, l.roleRow, PermissionRow("", false), user);
    } else if l.CreatePermission? {
      NewRowsAreLocal(s.tables, RoleRow("", false), l.permissionRow, user);
    }
  }

  /** What is owed stays owed until the key is deleted. */
  lemma OwedStays(s: State, l: Step, user: nat)
    requires Can(s, l) && Owed(s, user)
    ensures Owed(Do(s, l), user) || PermissionsOf(user) !in Do(s, l).cache
  {
    hide Effective;
    var t := Do(s, l);
    var w :| 0 <= w < |s.writers| && OwedBy(s, user, w);
    if l.SetUserRole? && l.user == user {
      assert OwedBy(t, user, |s.writers|);
    } else if l.Delete? && l.writer == w && s.writers[w].pc.users[0] == user {
      assert PermissionsOf(user) !in t.cache;
    } else {
      assert OwedBy(t, user, w);
    }
  }

  lemma DoKeepsCoherent(s: State, l: Step, user: nat)
    requires Inv(s) && Can(s, l)
    ensures Coherent(Do(s, l), user)
  {
    hide Effective, Owed, KeysExist, SetOf;
    var t, k := Do(s, l), PermissionsOf(user);
    DoKeepsHistory(s, l);
    if l.Store? && s.readers[l.reader].user == user {
      assert t.history[t.fills[user].stored].tables == t.tables;
    } else if k in t.cache {
      EntryFrame(s, l, user);
      assert EntryOk(s, user) && Coherent(s, user);
      assert t.history[s.fills[user].stored] == t.history[..|s.history|][s.fills[user].stored];
      ChangesAreOwed(s, l, user);
      if Owed(s, user) {
        OwedStays(s, l, user);
      }
    }
  }

  lemma DoKeepsInv(s: State, l: Step)
    requires Inv(s) && Can(s, l)
    ensures Inv(Do(s, l))
  {
    hide EntryOk, ReaderOk, Coherent, HistoryOk, KeysExist, Do, Can;
    var t := Do(s, l);
    DoKeepsHistory(s, l);
    forall r | 0 <= r < |t.readers| ensures ReaderOk(t, r) { DoKeepsReader(s, l, r); }
    forall user: nat ensures EntryOk(t, user) && Coherent(t, user) {
      DoKeepsEntry(s, l, user);
      DoKeepsCoherent(s, l, user);
    }
  }

  ghost predicate Attained(s: State) {
    exists start: real :: Reaches(CacheProtocol(), Initial(start), s)
  }

  lemma AttainedInv(s: State)
    requires Attained(s)
    ensures Inv(s)
  {
    hide Do, Can;
    forall t, l | Inv(t) && Can(t, l) ensures Inv(Do(t, l)) { DoKeepsInv(t, l); }
    var start: real :| Reaches(CacheProtocol(), Initial(start), s);
    var steps :| Valid(CacheProtocol(), Initial(start), steps) && Final(CacheProtocol(), Initial(start), steps) == s;
    InvariantHolds(CacheProtocol(), t => Inv(t), Initial(start), steps);
  }

  /** No writer has anything left to do. */
  predicate Quiescent(s: State) {
    forall w | 0 <= w < |s.writers| :: s.writers[w].pc == Deleting([])
  }

  /** The cached set, if any, is served. */
  predicate Served(s: State, user: nat, names: seq<string>) {
    Look(s.cache, PermissionsOf(user), s.now) == Some(Names(names))
  }

  /** A commit between the query and the fill of the cached set changed what the user may do. */
  predicate Raced(s: State, user: nat) {
    && user in s.fills && s.fills[user].version < |s.history| && s.fills[user].stored < |s.history|
    && Effective(s.history[s.fills[user].version].tables, user) != Effective(s.history[s.fills[user].stored].tables,
        user)
  }

  /** Coherence over every interleaving: a served set differs from the user's current permissions only if a
      writer on a role the user holds has not listed its holders yet, or the user is still on a writer's
      list, or commits between its query and its fill changed what this user may do. When no deletion of it
      is owed, and so whenever no writer is left, it is stale exactly in the last case. */
  lemma ServedSetsAreCoherent(s: State, user: nat, names: seq<string>)
    requires Attained(s) && Served(s, user, names)
    ensures user in s.fills && s.fills[user].version <= s.fills[user].stored < |s.history|
    ensures SetOf(names) == Effective(s.tables, user) || Owed(s, user) || Raced(s, user)
    ensures !Owed(s, user) ==> (SetOf(names) == Effective(s.tables, user) <==> !Raced(s, user))
    ensures Quiescent(s) ==> !Owed(s, user)
  {
    hide Effective, Attained, SetOf;
    AttainedInv(s);
    assert EntryOk(s, user) && Coherent(s, user);
  }

  lemma LiveSetsAreNames(s: State, user: nat)
    requires Attained(s) && PermissionsOf(user) in s.cache
    ensures s.cache[PermissionsOf(user)].value.Names?
  {
    hide Attained;
    AttainedInv(s);
    assert EntryOk(s, user);
  }

  /** A filled set is read for exactly 300 seconds from its fill, unless it is deleted or filled again. */
  lemma SetsLast(s: State, user: nat)
    requires Attained(s) && PermissionsOf(user) in s.cache
    ensures user in s.fills
    ensures Look(s.cache, PermissionsOf(user), s.now).Some? <==> s.now < s.fills[user].storedAt + 300.0
  {
    hide Attained;
    AttainedInv(s);
    assert EntryOk(s, user);
  }

  /** What a fill, a crash and a wait do: a fill is served at once, to the user who queried, for 300 seconds, and is
      its request's only one; a crashed writer never does anything again; and waiting is just time passing. */
  lemma StepsSay(s: State, l: Step)
    requires Can(s, l)
    ensures l.Store? ==>
              var x, t := s.readers[l.reader], Do(s, l);
              && Served(t, x.user, x.names) && x.user in t.fills && t.fills[x.user].storedAt == s.now
              && t.tables == s.tables && t.now == s.now && !Can(t, l)
              && forall d | d >= 0.0 :: Served(Do(t, Wait(d)), x.user, x.names) <==> d < 300.0
    ensures l.Crash? ==>
              && !Can(Do(s, l), l) && !Can(Do(s, l), Delete(l.writer))
              && (forall users :: !Can(Do(s, l), List(l.writer, users)))
              && Do(s, l).cache == s.cache && Do(s, l).tables == s.tables
    ensures l.Wait? ==> Do(s, l) == s.(now := s.now + l.seconds)
  {
    hide Effective, SetOf, ListsHolders;
  }

  /** A served set was exact at some instant less than 300 seconds plus the fetch-to-fill delay ago, even
      when writers crash and fills race with commits. */
  lemma ServedSetsAreRecent(s: State, user: nat, names: seq<string>)
    requires Attained(s) && Served(s, user, names)
    ensures user in s.fills
    ensures var f := s.fills[user];
            && Current(s, f.version, f.at) && SetOf(names) == Effective(s.history[f.version].tables, user)
            && f.at <= f.storedAt <= s.now < f.at + (f.storedAt - f.at) + 300.0
  {
    hide Effective, Attained;
    AttainedInv(s);
    assert EntryOk(s, user);
  }

  lemma Next(s: State, l: Step)
    requires Attained(s) && Can(s, l)
    ensures Attained(Do(s, l))
  {
    var start: real :| Reaches(CacheProtocol(), Initial(start), s);
    ReachesStep(CacheProtocol(), Initial(start), s, l);
  }

  /** User 7 has role 0, whose only permission is "p". */
  function OneRole(): Tables {
    Tables([PermissionRow("p", false)], [RoleRow("r", false)], {(0, 0)}, {(7, 0)})
  }

  lemma OneRoleHappens() returns (s: State)
    ensures Attained(s) && Quiescent(s) && s.tables == OneRole() && s.readers == [] && s.history != []
  {
    hide Attained, Effective;
    s := Initial(0.0);
    assert Attained(s) by { OneInitial(); }
    Next(s, CreateRole(RoleRow("r", false)));
    s := Do(s, CreateRole(RoleRow("r", false)));
    Next(s, CreatePermission(PermissionRow("p", false)));
    s := Do(s, CreatePermission(PermissionRow("p", false)));
    Next(s, SetRolePermission(0, 0, true));
    s := Do(s, SetRolePermission(0, 0, true));
    Next(s, List(0, []));
    s := Do(s, List(0, []));
    Next(s, SetUserRole(7, 0, true));
    s := Do(s, SetUserRole(7, 0, true));
    Next(s, Delete(1));
    s := Do(s, Delete(1));
  }

  lemma OneInitial()
    ensures Attained(Initial(0.0))
  {
    ReachesRefl(CacheProtocol(), Initial(0.0));
  }

  lemma OneRoleGives()
    ensures Effective(OneRole(), 7) == {"p"} && Effective(WithUserRole(OneRole(), 7, 0, false), 7) == {}
  {
    assert Gives(OneRole(), 7, (0, 0));
    assert OneRole().permissions[0].name == "p";
  }

  lemma QueriedBefore(s: State, user: nat, role: nat, granted: bool, names: seq<string>) returns (t: State)
    requires Attained(s) && Quiescent(s) && role < |s.tables.roles| && SetOf(names) == Effective(s.tables, user)
    requires s.history != []
    ensures Attained(t) && t.tables == WithUserRole(s.tables, user, role, granted) && t.history != []
    ensures t.writers == s.writers + [Writer(Deleting([user]), false)]
    ensures |t.readers| == |s.readers| + 1
    ensures t.readers[|s.readers|].user == user && t.readers[|s.readers|].names == names
    ensures !t.readers[|s.readers|].stored
  {
    hide Attained, Effective, WithUserRole;
    Next(s, Fetch(user, names));
    t := Do(s, Fetch(user, names));
    Next(t, SetUserRole(user, role, granted));
    t := Do(t, SetUserRole(user, role, granted));
  }

  lemma FilledAfter(s: State, w: nat, r: nat) returns (t: State)
    requires Attained(s) && s.history != [] && w < |s.writers| && r < |s.readers| && !s.readers[r].stored
    requires s.writers[w] == Writer(Deleting([s.readers[r].user]), false)
    ensures Attained(t) && t.tables == s.tables && Served(t, s.readers[r].user, s.readers[r].names)
    ensures t.writers == s.writers[w := Writer(Deleting([]), false)]
  {
    hide Attained, Effective;
    assert [s.readers[r].user][1..] == [];
    Next(s, Delete(w));
    t := Do(s, Delete(w));
    Next(t, Store(r));
    t := Do(t, Store(r));
  }

  /** Every commit that changes what a user may do can do this: from any state with no writer left, a request
      that queried before the commit and fills after its deletion leaves the user a stale set that no writer
      will delete. */
  lemma RacingFillServesStale(s: State, user: nat, role: nat, granted: bool, names: seq<string>) returns (t: State)
    requires Attained(s) && Quiescent(s) && role < |s.tables.roles| && SetOf(names) == Effective(s.tables, user)
    requires Effective(WithUserRole(s.tables, user, role, granted), user) != Effective(s.tables, user)
    ensures Attained(t) && Quiescent(t) && Served(t, user, names)
    ensures t.tables == WithUserRole(s.tables, user, role, granted) && SetOf(names) != Effective(t.tables, user)
  {
    AttainedInv(s);
    hide Attained, Effective, WithUserRole, KeysExist, EntryOk, ReaderOk, Coherent, Served;
    t := QueriedBefore(s, user, role, granted, names);
    t := FilledAfter(t, |s.writers|, |s.readers|);
  }

  /** Such states exist: here user 7 loses role 0, and with it "p". */
  lemma StaleSetHappens() returns (t: State)
    ensures Attained(t) && Quiescent(t) && Served(t, 7, ["p"]) && Effective(t.tables, 7) == {}
  {
    hide Attained, Effective, WithUserRole, Quiescent, Served;
    var s := OneRoleHappens();
    OneRoleGives();
    assert SetOf(["p"]) == {"p"};
    t := RacingFillServesStale(s, 7, 0, false, ["p"]);
  }
}
