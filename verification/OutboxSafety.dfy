/** What every run of the producer machine keeps. */
module OutboxSafety {
  import opened Delivery
  import opened Outbox
  import opened Runs
  import opened Subjects
  import opened Wire

  /** The committed rows of unit `u`, without what relays change. */
  ghost function KeysOf(rows: seq<Row>, u: nat): seq<Row> {
    if rows == [] then []
    else
      var k := |rows| - 1;
      KeysOf(rows[..k], u) + if rows[k].tx == u then [Key(rows[k])] else []
  }

  /** The committed business writes of unit `u`. */
  ghost function WritesOf(business: seq<(nat, nat)>, u: nat): seq<nat> {
    if business == [] then []
    else
      var k := |business| - 1;
      WritesOf(business[..k], u) + if business[k].0 == u then [business[k].1] else []
  }

  lemma KeysOfSnoc(rows: seq<Row>, r: Row, v: nat)
    ensures KeysOf(rows + [r], v) == KeysOf(rows, v) + if r.tx == v then [Key(r)] else []
  {
    assert (rows + [r])[..|rows|] == rows;
  }

  lemma {:induction false} KeysOfAppend(rows: seq<Row>, staged: seq<Row>, u: nat, v: nat)
    requires forall i | 0 <= i < |staged| :: staged[i].tx == u && Key(staged[i]) == staged[i]
    ensures KeysOf(rows + staged, v) == KeysOf(rows, v) + if u == v then staged else []
  {
    hide KeysOf;
    if staged == [] {
      assert rows + staged == rows;
    } else {
      var k := |staged| - 1;
      KeysOfAppend(rows, staged[..k], u, v);
      assert rows + staged == rows + staged[..k] + [staged[k]];
      KeysOfSnoc(rows + staged[..k], staged[k], v);
      assert staged[..k] + [staged[k]] == staged;
    }
  }

  lemma {:induction false} KeysOfSame(rows: seq<Row>, other: seq<Row>, v: nat)
    requires |rows| == |other| && forall i | 0 <= i < |rows| :: Key(rows[i]) == Key(other[i])
    ensures KeysOf(rows, v) == KeysOf(other, v)
  {
    if rows != [] {
      var k := |rows| - 1;
      KeysOfSame(rows[..k], other[..k], v);
      assert Key(rows[k]).tx == rows[k].tx && Key(other[k]).tx == other[k].tx;
    }
  }

  lemma {:induction false} WritesOfAppend(business: seq<(nat, nat)>, writes: seq<nat>, u: nat, v: nat)
    ensures WritesOf(business + Written(writes, u), v) == WritesOf(business, v) + if u == v then writes else []
  {
    if writes == [] {
      assert business + Written(writes, u) == business;
    } else {
      var k := |writes| - 1;
      WritesOfAppend(business, writes[..k], u, v);
      var all := business + Written(writes, u);
      assert all[..|all| - 1] == business + Written(writes[..k], u) && all[|all| - 1] == (u, writes[k]);
      assert writes[..k] + [writes[k]] == writes;
    }
  }

  /** A unit's outbox rows and its business writes are in the database together, exactly when its
      commit took effect. */
  ghost predicate Atomic(w: World, u: nat)
    requires u < |w.units|
  {
    var x := w.units[u];
    && KeysOf(w.db.rows, u) == (if x.applied then x.staged else [])
    && WritesOf(w.db.business, u) == (if x.applied then x.writes else [])
  }

  ghost predicate UnitOk(w: World, u: nat)
    requires u < |w.units|
  {
    && Atomic(w, u)
    && (w.units[u].pc.Open? ==> !w.units[u].applied)
    && forall i | 0 <= i < |w.units[u].staged| :: w.units[u].staged[i].tx == u
        && Key(w.units[u].staged[i]) == w.units[u].staged[i]
  }

  /** The stream accepted a message published for row `r`. */
  ghost predicate Logged(w: World, r: nat) {
    exists i :: 0 <= i < |w.log| && w.log[i].source == Some(r)
  }

  ghost predicate Audited(db: Db, r: nat) {
    exists q :: 0 <= q < |db.store| && db.store[q].source == r
  }

  /** The message holds the row's class path and payload and goes to its subject. */
  predicate Carries(m: Message, r: Row) {
    && m.subject == r.subject && m.data.Text? && m.data == RowBytes(r, m.data.spelling)
  }

  ghost predicate EntryOk(w: World, i: nat)
    requires i < |w.log|
  {
    w.log[i].source.Some? ==>
      w.log[i].source.value < |w.db.rows| && Carries(w.log[i].message, w.db.rows[w.log[i].source.value])
  }

  ghost predicate StoreOk(w: World, q: nat)
    requires q < |w.db.store|
  {
    var r := w.db.store[q].source;
    r < |w.db.rows| && w.db.store[q] == StoreRowFor(w.db.rows[r], r) && Logged(w, r)
  }

  ghost predicate RelayOk(w: World, k: nat)
    requires k < |w.relays|
  {
    var x := w.relays[k];
    && |x.loaded| <= |w.db.rows| && (forall i | 0 <= i < |x.loaded| :: Key(x.loaded[i]) == Key(w.db.rows[i]))
    && (forall i | 0 <= i < |x.selected| :: x.selected[i] < |x.loaded|)
    && x.pos <= |x.selected|
    && (x.pc.Marking? || x.pc.Storing? || x.pc.Counting? ==> x.pos < |x.selected|)
    && (x.pc.Marking? ==> Logged(w, x.selected[x.pos]))
    && |x.marks| == |x.stores| + (if x.pc.Storing? then 1 else 0)
    && (x.pc.Storing? ==> x.marks[|x.stores|] == x.selected[x.pos])
    && (forall i | 0 <= i < |x.marks| :: x.marks[i] < |x.loaded| && Logged(w, x.marks[i]))
    && (forall i | 0 <= i < |x.stores| :: x.stores[i] == StoreRowFor(w.db.rows[x.marks[i]], x.marks[i]))
  }

  /** An ended relay may have been abandoned mid-row; its buffered writes no longer matter. */
  ghost predicate RelayFine(w: World, k: nat)
    requires k < |w.relays|
  {
    w.relays[k].pc.RelayEnded? || RelayOk(w, k)
  }

  ghost predicate Safe(w: World) {
    && (forall u | 0 <= u < |w.units| :: UnitOk(w, u))
    && (forall r | 0 <= r < |w.db.rows| :: w.db.rows[r].tx < |w.units|)
    && (forall b | 0 <= b < |w.db.business| :: w.db.business[b].0 < |w.units|)
    && (forall i | 0 <= i < |w.log| :: EntryOk(w, i))
    && (forall q | 0 <= q < |w.db.store| :: StoreOk(w, q))
    && (forall r | 0 <= r < |w.db.rows| && w.db.rows[r].published :: Logged(w, r) && Audited(w.db, r))
    && (forall k | 0 <= k < |w.relays| :: RelayFine(w, k))
  }

  /** Rows keep what they say and never become unpublished; the stream and the audit log only grow. */
  ghost predicate Extends(w: World, v: World) {
    && |w.db.rows| <= |v.db.rows|
    && (forall r | 0 <= r < |w.db.rows| ::
          Key(v.db.rows[r]) == Key(w.db.rows[r]) && (w.db.rows[r].published ==> v.db.rows[r].published))
    && |w.log| <= |v.log| && (forall i | 0 <= i < |w.log| :: v.log[i] == w.log[i])
    && |w.db.store| <= |v.db.store| && (forall q | 0 <= q < |w.db.store| :: v.db.store[q] == w.db.store[q])
  }

  lemma MoveExtends(p: Prefixes, w: World, m: Move)
    requires Safe(w) && CanMove(p, w, m)
    ensures Extends(w, Do(p, w, m))
  {
  }

  lemma CommitKeepsUnits(p: Prefixes, w: World, v: nat, applied: bool, raised: bool, u: nat)
    requires Safe(w) && CanMove(p, w, Commit(v, applied, raised)) && u < |w.units|
    ensures UnitOk(Do(p, w, Commit(v, applied, raised)), u)
  {
    assert UnitOk(w, u) && UnitOk(w, v);
    KeysOfAppend(w.db.rows, w.units[v].staged, v, u);
    WritesOfAppend(w.db.business, w.units[v].writes, v, u);
  }

  lemma RelayCommitKeepsUnits(p: Prefixes, w: World, k: nat, applied: bool, raised: bool, u: nat)
    requires Safe(w) && CanMove(p, w, RelayCommit(k, applied, raised)) && u < |w.units|
    ensures UnitOk(Do(p, w, RelayCommit(k, applied, raised)), u)
  {
    assert UnitOk(w, u);
    KeysOfSame(w.db.rows, Do(p, w, RelayCommit(k, applied, raised)).db.rows, u);
  }

  lemma OtherMovesKeepDb(p: Prefixes, w: World, m: Move)
    requires CanMove(p, w, m) && !m.Commit? && !m.RelayCommit?
    ensures Do(p, w, m).db == w.db
  {
  }

  lemma OtherMovesKeepUnits(p: Prefixes, w: World, m: Move, u: nat)
    requires Safe(w) && CanMove(p, w, m) && !m.Commit? && !m.RelayCommit? && u < |Do(p, w, m).units|
    ensures UnitOk(Do(p, w, m), u)
  {
    hide KeysOf, WritesOf, IsSelection, RowBytes, RelayFine, StoreOk, EntryOk, Logged, Audited, MarkRows;
    OtherMovesKeepDb(p, w, m);
    if u < |w.units| {
      assert UnitOk(w, u);
    } else {
      NoRowsYet(w, u);
    }
  }

  lemma MoveKeepsUnits(p: Prefixes, w: World, m: Move, u: nat)
    requires Safe(w) && CanMove(p, w, m) && u < |Do(p, w, m).units|
    ensures UnitOk(Do(p, w, m), u)
  {
    hide UnitOk, Do, CanMove, Safe;
    match m
    case Commit(v, applied, raised) =>
      CommitUnits(p, w, v, applied, raised);
      CommitKeepsUnits(p, w, v, applied, raised, u);
    case RelayCommit(k, applied, raised) =>
      RelayCommitUnits(p, w, k, applied, raised);
      RelayCommitKeepsUnits(p, w, k, applied, raised, u);
    case _ => OtherMovesKeepUnits(p, w, m, u);
  }

  lemma CommitUnits(p: Prefixes, w: World, v: nat, applied: bool, raised: bool)
    ensures |Do(p, w, Commit(v, applied, raised)).units| == |w.units|
  {
  }

  lemma RelayCommitUnits(p: Prefixes, w: World, k: nat, applied: bool, raised: bool)
    ensures Do(p, w, RelayCommit(k, applied, raised)).units == w.units
  {
  }

  lemma NoRowsYet(w: World, u: nat)
    requires forall r | 0 <= r < |w.db.rows| :: w.db.rows[r].tx < u
    requires forall b | 0 <= b < |w.db.business| :: w.db.business[b].0 < u
    ensures KeysOf(w.db.rows, u) == [] && WritesOf(w.db.business, u) == []
  {
    NoKeys(w.db.rows, u);
    NoWrites(w.db.business, u);
  }

  lemma {:induction false} NoKeys(rows: seq<Row>, u: nat)
    requires forall r | 0 <= r < |rows| :: rows[r].tx < u
    ensures KeysOf(rows, u) == []
  {
    if rows != [] { NoKeys(rows[..|rows| - 1], u); }
  }

  lemma {:induction false} NoWrites(business: seq<(nat, nat)>, u: nat)
    requires forall b | 0 <= b < |business| :: business[b].0 < u
    ensures WritesOf(business, u) == []
  {
    if business != [] { NoWrites(business[..|business| - 1], u); }
  }

  /** What the stream holds for a row stays there. */
  lemma LoggedStays(w: World, v: World, r: nat)
    requires Extends(w, v) && Logged(w, r)
    ensures Logged(v, r)
  {
    var i :| 0 <= i < |w.log| && w.log[i].source == Some(r);
    assert v.log[i].source == Some(r);
  }

  lemma AuditedStays(w: World, v: World, r: nat)
    requires Extends(w, v) && Audited(w.db, r)
    ensures Audited(v.db, r)
  {
    var q :| 0 <= q < |w.db.store| && w.db.store[q].source == r;
    assert v.db.store[q].source == r;
  }

  lemma MoveKeepsEntries(p: Prefixes, w: World, m: Move, i: nat)
    requires Safe(w) && CanMove(p, w, m) && Extends(w, Do(p, w, m)) && i < |Do(p, w, m).log|
    ensures EntryOk(Do(p, w, m), i)
  {
    if i < |w.log| {
      assert EntryOk(w, i);
      if w.log[i].source.Some? {
        assert Key(Do(p, w, m).db.rows[w.log[i].source.value]) == Key(w.db.rows[w.log[i].source.value]);
      }
    } else if m.RelayPublish? {
      var x := w.relays[m.relay];
      assert RelayFine(w, m.relay);
      assert Key(x.loaded[Current(x)]) == Key(w.db.rows[Current(x)]);
    }
  }

  lemma OldStoreOk(w: World, v: World, q: nat)
    requires q < |w.db.store| && StoreOk(w, q) && Extends(w, v)
    ensures StoreOk(v, q)
  {
    var r := w.db.store[q].source;
    LoggedStays(w, v, r);
    assert Key(v.db.rows[r]) == Key(w.db.rows[r]);
  }

  lemma NewStoreOk(w: World, v: World, k: nat, i: nat)
    requires k < |w.relays| && RelayOk(w, k) && Extends(w, v) && i < |w.relays[k].stores|
    requires v.db.store == w.db.store + w.relays[k].stores
    ensures StoreOk(v, |w.db.store| + i)
  {
    var x := w.relays[k];
    var r := x.marks[i];
    assert v.db.store[|w.db.store| + i] == x.stores[i];
    LoggedStays(w, v, r);
    assert Key(v.db.rows[r]) == Key(w.db.rows[r]);
  }

  lemma RelayCommitEffect(p: Prefixes, w: World, k: nat, applied: bool, raised: bool)
    requires CanMove(p, w, RelayCommit(k, applied, raised))
    ensures var v := Do(p, w, RelayCommit(k, applied, raised));
            && k < |w.relays|
            && v.db.store == w.db.store + (if applied then w.relays[k].stores else [])
            && (Safe(w) ==> RelayOk(w, k) && |w.relays[k].stores| == |w.relays[k].marks|)
  {
    assert Safe(w) ==> RelayFine(w, k);
  }

  lemma StoreUnchanged(p: Prefixes, w: World, m: Move)
    requires CanMove(p, w, m) && !m.RelayCommit?
    ensures Do(p, w, m).db.store == w.db.store
  {
  }

  lemma MoveKeepsStore(p: Prefixes, w: World, m: Move, q: nat)
    requires Safe(w) && CanMove(p, w, m) && Extends(w, Do(p, w, m)) && q < |Do(p, w, m).db.store|
    ensures StoreOk(Do(p, w, m), q)
  {
    hide Do, CanMove, Extends;
    if q < |w.db.store| {
      assert StoreOk(w, q);
      OldStoreOk(w, Do(p, w, m), q);
    } else if m.RelayCommit? {
      RelayCommitEffect(p, w, m.relay, m.applied, m.raised);
      NewStoreOk(w, Do(p, w, m), m.relay, q - |w.db.store|);
    } else {
      StoreUnchanged(p, w, m);
    }
  }

  lemma PublishedBefore(p: Prefixes, w: World, m: Move, r: nat)
    requires Safe(w) && CanMove(p, w, m) && !m.RelayCommit?
    requires r < |Do(p, w, m).db.rows| && Do(p, w, m).db.rows[r].published
    ensures r < |w.db.rows| && w.db.rows[r].published
  {
    if m.Commit? {
      var x := w.units[m.unit];
      assert UnitOk(w, m.unit);
      assert forall i | 0 <= i < |x.staged| :: Key(x.staged[i]) == x.staged[i] && !x.staged[i].published;
    } else {
      OtherMovesKeepDb(p, w, m);
    }
  }

  lemma BufferedMarkLands(w: World, v: World, k: nat, r: nat)
    requires k < |w.relays| && RelayOk(w, k) && Extends(w, v) && r in w.relays[k].marks
    requires |w.relays[k].marks| == |w.relays[k].stores| && v.db.store == w.db.store + w.relays[k].stores
    ensures Logged(v, r) && Audited(v.db, r)
  {
    var x := w.relays[k];
    var i :| 0 <= i < |x.marks| && x.marks[i] == r;
    LoggedStays(w, v, r);
    assert v.db.store[|w.db.store| + i] == x.stores[i];
  }

  lemma MoveKeepsPublished(p: Prefixes, w: World, m: Move, r: nat)
    requires Safe(w) && CanMove(p, w, m) && Extends(w, Do(p, w, m))
    requires r < |Do(p, w, m).db.rows| && Do(p, w, m).db.rows[r].published
    ensures Logged(Do(p, w, m), r) && Audited(Do(p, w, m).db, r)
  {
    hide Safe, Extends;
    if m.RelayCommit? && m.applied && r in w.relays[m.relay].marks {
      RelayCommitEffect(p, w, m.relay, m.applied, m.raised);
      BufferedMarkLands(w, Do(p, w, m), m.relay, r);
    } else {
      if !m.RelayCommit? {
        PublishedBefore(p, w, m, r);
      }
      PublishedStays(w, Do(p, w, m), r);
    }
  }

  lemma PublishedStays(w: World, v: World, r: nat)
    requires Safe(w) && Extends(w, v) && r < |w.db.rows| && w.db.rows[r].published
    ensures Logged(v, r) && Audited(v.db, r)
  {
    LoggedStays(w, v, r);
    AuditedStays(w, v, r);
  }

  lemma RelayFrame(w: World, v: World, k: nat)
    requires Extends(w, v) && k < |w.relays| && k < |v.relays| && v.relays[k] == w.relays[k] && RelayOk(w, k)
    ensures RelayOk(v, k)
  {
    var x := w.relays[k];
    forall i | 0 <= i < |x.marks| ensures Logged(v, x.marks[i]) { LoggedStays(w, v, x.marks[i]); }
    if x.pc.Marking? { LoggedStays(w, v, x.selected[x.pos]); }
    forall i | 0 <= i < |x.loaded| ensures Key(x.loaded[i]) == Key(v.db.rows[i]) {}
    forall i | 0 <= i < |x.stores| ensures x.stores[i] == StoreRowFor(v.db.rows[x.marks[i]], x.marks[i]) {
      assert Key(v.db.rows[x.marks[i]]) == Key(w.db.rows[x.marks[i]]);
    }
  }

  predicate OnRelay(m: Move, k: nat) {
    match m
    case RelayPublish(j, _, _, _) => j == k
    case RelaySkip(j) => j == k
    case RelayMark(j) => j == k
    case RelayStore(j) => j == k
    case RelayCount(j) => j == k
    case RelayCommit(j, _, _) => j == k
    case AbandonRelay(j) => j == k
    case _ => false
  }

  lemma PublishKeepsRelay(p: Prefixes, w: World, k: nat, stored: bool, raised: bool, spelling: nat)
    requires Safe(w) && CanMove(p, w, RelayPublish(k, stored, raised, spelling))
    requires Extends(w, Do(p, w, RelayPublish(k, stored, raised, spelling)))
    ensures RelayFine(Do(p, w, RelayPublish(k, stored, raised, spelling)), k)
  {
    var v := Do(p, w, RelayPublish(k, stored, raised, spelling));
    var x := w.relays[k];
    assert RelayFine(w, k);
    forall i | 0 <= i < |x.marks| ensures Logged(v, x.marks[i]) { LoggedStays(w, v, x.marks[i]); }
    if stored {
      assert v.log[|w.log|].source == Some(Current(x));
    }
  }

  lemma ActingRelayFine(p: Prefixes, w: World, m: Move, k: nat)
    requires Safe(w) && CanMove(p, w, m) && Extends(w, Do(p, w, m)) && k < |w.relays| && OnRelay(m, k)
    ensures RelayFine(Do(p, w, m), k)
  {
    if m.RelayPublish? {
      PublishKeepsRelay(p, w, k, m.stored, m.raised, m.spelling);
    } else {
      var v := Do(p, w, m);
      assert RelayFine(w, k);
      if !v.relays[k].pc.RelayEnded? {
        assert v.log == w.log && v.db == w.db;
        assert forall r :: Logged(w, r) ==> Logged(v, r);
        var x := w.relays[k];
        assert x.pos < |x.selected| ==> Key(x.loaded[Current(x)]) == Key(w.db.rows[Current(x)]);
      }
    }
  }

  lemma MoveKeepsRelays(p: Prefixes, w: World, m: Move, k: nat)
    requires Safe(w) && CanMove(p, w, m) && Extends(w, Do(p, w, m)) && k < |Do(p, w, m).relays|
    ensures RelayFine(Do(p, w, m), k)
  {
    if k < |w.relays| {
      assert RelayFine(w, k);
      if OnRelay(m, k) {
        ActingRelayFine(p, w, m, k);
      } else {
        assert Do(p, w, m).relays[k] == w.relays[k];
        if !w.relays[k].pc.RelayEnded? {
          RelayFrame(w, Do(p, w, m), k);
        }
      }
    }
  }

  lemma MoveKeepsOwners(p: Prefixes, w: World, m: Move)
    requires Safe(w) && CanMove(p, w, m)
    ensures var v := Do(p, w, m);
            && (forall r | 0 <= r < |v.db.rows| :: v.db.rows[r].tx < |v.units|)
            && (forall b | 0 <= b < |v.db.business| :: v.db.business[b].0 < |v.units|)
  {
    if m.Commit? {
      assert UnitOk(w, m.unit);
    }
  }

  lemma MoveKeepsSafe(p: Prefixes, w: World, m: Move)
    requires Safe(w) && CanMove(p, w, m)
    ensures Safe(Do(p, w, m))
  {
    hide KeysOf, WritesOf;
    var v := Do(p, w, m);
    MoveExtends(p, w, m);
    MoveKeepsOwners(p, w, m);
    forall u | 0 <= u < |v.units| ensures UnitOk(v, u) { MoveKeepsUnits(p, w, m, u); }
    forall i | 0 <= i < |v.log| ensures EntryOk(v, i) { MoveKeepsEntries(p, w, m, i); }
    forall q | 0 <= q < |v.db.store| ensures StoreOk(v, q) { MoveKeepsStore(p, w, m, q); }
    forall r | 0 <= r < |v.db.rows| && v.db.rows[r].published ensures Logged(v, r) && Audited(v.db, r) {
      MoveKeepsPublished(p, w, m, r);
    }
    forall k | 0 <= k < |v.relays| ensures RelayFine(v, k) { MoveKeepsRelays(p, w, m, k); }
  }

  ghost predicate Attainable(p: Prefixes, w: World) {
    Reaches(Producer(p), Nothing(), w)
  }

  lemma AttainableSafe(p: Prefixes, w: World)
    requires Attainable(p, w)
    ensures Safe(w)
  {
    forall v, m | Safe(v) && CanMove(p, v, m) ensures Safe(Do(p, v, m)) { MoveKeepsSafe(p, v, m); }
    var moves :| Valid(Producer(p), Nothing(), moves) && Final(Producer(p), Nothing(), moves) == w;
    InvariantHolds(Producer(p), v => Safe(v), Nothing(), moves);
  }

  lemma ExtendsTrans(w: World, v: World, u: World)
    requires Extends(w, v) && Extends(v, u)
    ensures Extends(w, u)
  {
  }

  /** Outbox rows are never rewritten and `published_at` never reverts to null, over any run; the
      stream and the audit log only grow. */
  lemma RunsExtend(p: Prefixes, w: World, v: World)
    requires Attainable(p, w) && Reaches(Producer(p), w, v)
    ensures Attainable(p, v) && Extends(w, v)
  {
    AttainableSafe(p, w);
    forall x, m | Safe(x) && CanMove(p, x, m) ensures Safe(Do(p, x, m)) && Extends(x, Do(p, x, m)) {
      MoveKeepsSafe(p, x, m);
      MoveExtends(p, x, m);
    }
    forall x, m | Safe(x) && CanMove(p, x, m) && Extends(w, x) ensures Extends(w, Do(p, x, m)) {
      ExtendsTrans(w, x, Do(p, x, m));
    }
    var moves :| Valid(Producer(p), w, moves) && Final(Producer(p), w, moves) == v;
    RelationHolds(Producer(p), x => Safe(x), (a, b) => Extends(a, b), w, moves);
    ReachesTrans(Producer(p), Nothing(), w, v);
  }

  /** Outbox safety, with rollbacks, crashes and concurrent relays: a unit's outbox rows are committed
      exactly when its business writes are; what relays put on the stream comes from committed rows
      and carries them; every row with `published_at` set was accepted by the stream and has an audit
      row; every audit row is for an accepted message of a committed row, has that row's class path and payload,
      and is named after the class. */
  lemma OutboxIsSafe(p: Prefixes, w: World)
    requires Attainable(p, w)
    ensures forall u | 0 <= u < |w.units| :: Atomic(w, u)
    ensures forall i | 0 <= i < |w.log| && w.log[i].source.Some? ::
              w.log[i].source.value < |w.db.rows| && Carries(w.log[i].message, w.db.rows[w.log[i].source.value])
    ensures forall r | 0 <= r < |w.db.rows| && w.db.rows[r].published ::
              Logged(w, r) && exists q :: 0 <= q < |w.db.store| && Audits(w.db.store[q], w.db.rows[r], r)
    ensures forall q | 0 <= q < |w.db.store| ::
              var r := w.db.store[q].source;
              Logged(w, r) && r < |w.db.rows| && Audits(w.db.store[q], w.db.rows[r], r)
  {
    hide KeysOf, WritesOf, Valid, Final;
    AttainableSafe(p, w);
    forall u | 0 <= u < |w.units| ensures Atomic(w, u) { assert UnitOk(w, u); }
    forall i | 0 <= i < |w.log| && w.log[i].source.Some?
      ensures w.log[i].source.value < |w.db.rows| && Carries(w.log[i].message, w.db.rows[w.log[i].source.value])
    {
      assert EntryOk(w, i);
    }
    forall q | 0 <= q < |w.db.store|
      ensures Logged(w, w.db.store[q].source) && w.db.store[q].source < |w.db.rows|
      ensures Audits(w.db.store[q], w.db.rows[w.db.store[q].source], w.db.store[q].source)
    {
      assert StoreOk(w, q);
      StoreRowAudits(w.db.rows[w.db.store[q].source], w.db.store[q].source);
    }
    forall r | 0 <= r < |w.db.rows| && w.db.rows[r].published
      ensures exists q :: 0 <= q < |w.db.store| && Audits(w.db.store[q], w.db.rows[r], r)
    {
      var q :| 0 <= q < |w.db.store| && w.db.store[q].source == r;
      assert Audits(w.db.store[q], w.db.rows[w.db.store[q].source], w.db.store[q].source);
    }
  }
}
