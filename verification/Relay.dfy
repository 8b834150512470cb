/** `durable_unit_of_work`, `relay_pending_outbox` and `_relay_outbox_row`. Each await may let other
    units and relays make any moves. */
module Relay {
  import opened Commits
  import opened Outbox
  import opened OutboxSafety
  import opened Pending
  import opened Runs
  import opened Subjects
  import opened Wire

  /** How one row fares: whether the bus is connected, whether the publish is stored and raises,
      whether a flush raises, and what others do before and after the publish. */
  datatype Fate = Fate(
    connected: bool, stored: bool, raised: bool, flushFails: bool, spelling: nat,
    before: seq<Move>, during: seq<Move>)

  /** The unit's session: what others do before its commit, the commit, and whether closing it raises. */
  datatype UnitFate = UnitFate(before: seq<Move>, commit: CommitFate, closeRaised: bool)

  /** The relay's session: whether loading the rows raises, what others do before its commit, the commit,
      and whether the rollback after a failure and the closing raise. */
  datatype RelayFate = RelayFate(
    loadRaised: bool, before: seq<Move>, commit: CommitFate, rollbackRaised: bool, closeRaised: bool)

  predicate Possible(f: Fate) { f.stored || f.raised }

  predicate Smooth(f: Fate) {
    f.connected && f.stored && !f.raised && !f.flushFails && f.before == [] && f.during == []
  }

  predicate SmoothCommit(c: CommitFate) { c.applied && !c.raised }

  predicate SmoothUnit(f: UnitFate) { SmoothCommit(f.commit) && f.before == [] }

  predicate SmoothSession(f: RelayFate) { !f.loadRaised && SmoothCommit(f.commit) && f.before == [] }

  datatype Owner = OfUnit(unit: nat) | OfRelay(relay: nat)

  /** Moves that leave the owner's own record alone. */
  predicate Foreign(m: Move, mine: Owner) {
    match mine
    case OfUnit(u) =>
      !((m.BusinessWrite? || m.Stage? || m.Commit? || m.AbandonUnit? || m.StartRelay?) && m.unit == u)
    case OfRelay(k) =>
      !((m.RelayPublish? || m.RelaySkip? || m.RelayMark? || m.RelayStore? || m.RelayCount? || m.RelayCommit? ||
         m.AbandonRelay?) && m.relay == k)
  }

  predicate Owns(w: World, mine: Owner) {
    match mine
    case OfUnit(u) => u < |w.units|
    case OfRelay(k) => k < |w.relays|
  }

  predicate SameRecord(w: World, v: World, mine: Owner) {
    match mine
    case OfUnit(u) => u < |w.units| && u < |v.units| && v.units[u] == w.units[u]
    case OfRelay(k) => k < |w.relays| && k < |v.relays| && v.relays[k] == w.relays[k]
  }

  lemma ForeignKeepsRecord(p: Prefixes, w: World, m: Move, mine: Owner)
    requires Foreign(m, mine) && Owns(w, mine)
    ensures SameRecord(w, Do(p, w, m), mine)
  {
  }

  /** A closed unit never changes again. */
  predicate ClosedKept(w: World, v: World) {
    |w.units| <= |v.units| &&
    forall u | 0 <= u < |w.units| && w.units[u].pc.Closed? :: v.units[u] == w.units[u]
  }

  lemma DoKeepsClosed(p: Prefixes, w: World, m: Move)
    ensures ClosedKept(w, Do(p, w, m))
  {
  }

  /** A relay once the publish of its current row returned or raised; a flush that raises ends it. */
  function Settled(x: Relay, raised: bool, flushFails: bool): Relay
    requires x.pos < |x.selected| && x.selected[x.pos] < |x.loaded|
  {
    var r := x.selected[x.pos];
    if flushFails then x.(pc := RelayEnded)
    else if raised then
      x.(counts := x.counts[r := x.loaded[r].attempts + 1], pos := x.pos + 1, pc := Publishing)
    else
      x.(marks := x.marks + [r], stores := x.stores + [StoreRowFor(x.loaded[r], r)], pos := x.pos + 1, pc := Publishing)
  }

  /** A relay after `_relay_outbox_row` for its current row. */
  function AfterRow(x: Relay, f: Fate): Relay
    requires x.pos < |x.selected| && x.selected[x.pos] < |x.loaded|
  {
    if !f.connected then x.(pos := x.pos + 1) else Settled(x, f.raised, f.flushFails)
  }

  /** What the row adds to the stream. */
  function RowEntries(x: Relay, f: Fate): seq<Entry>
    requires x.pos < |x.selected| && x.selected[x.pos] < |x.loaded|
  {
    var r := x.selected[x.pos];
    if f.connected && f.stored then [RowEntry(x.loaded[r], r, f.spelling)] else []
  }

  function RowEntry(row: Row, r: nat, spelling: nat): Entry {
    Entry(Delivery.Message(row.subject, RowBytes(row, spelling)), Some(r))
  }

  predicate Fits(x: Relay) {
    x.pos <= |x.selected| && forall i | 0 <= i < |x.selected| :: x.selected[i] < |x.loaded|
  }

  /** The relay after the rows from `x.pos` on; it stops early when a flush raises. */
  function AfterRows(x: Relay, fates: seq<Fate>): Relay
    requires Fits(x) && |x.selected| <= |fates|
    decreases |x.selected| - x.pos, !x.pc.RelayEnded?
  {
    if x.pos == |x.selected| || x.pc.RelayEnded? then x else AfterRows(AfterRow(x, fates[x.pos]), fates)
  }

  function AllEntries(x: Relay, fates: seq<Fate>): seq<Entry>
    requires Fits(x) && |x.selected| <= |fates|
    decreases |x.selected| - x.pos, !x.pc.RelayEnded?
  {
    if x.pos == |x.selected| || x.pc.RelayEnded? then []
    else RowEntries(x, fates[x.pos]) + AllEntries(AfterRow(x, fates[x.pos]), fates)
  }

  predicate Quiet(fates: seq<Fate>) {
    forall i | 0 <= i < |fates| :: fates[i].before == [] && fates[i].during == []
  }

  function StoresFor(loaded: seq<Row>, sel: seq<nat>): seq<StoreRow>
    requires forall i | 0 <= i < |sel| :: sel[i] < |loaded|
  {
    seq(|sel|, i requires 0 <= i < |sel| => StoreRowFor(loaded[sel[i]], sel[i]))
  }

  function EntriesFor(loaded: seq<Row>, sel: seq<nat>, fates: seq<Fate>): seq<Entry>
    requires |sel| <= |fates| && forall i | 0 <= i < |sel| :: sel[i] < |loaded|
  {
    seq(|sel|, i requires 0 <= i < |sel| => RowEntry(loaded[sel[i]], sel[i], fates[i].spelling))
  }

  lemma RowsUnfold(x: Relay, fates: seq<Fate>)
    requires Fits(x) && |x.selected| <= |fates| && x.pos < |x.selected| && !x.pc.RelayEnded?
    ensures Fits(AfterRow(x, fates[x.pos])) && AfterRow(x, fates[x.pos]).selected == x.selected
    ensures AfterRows(x, fates) == AfterRows(AfterRow(x, fates[x.pos]), fates)
    ensures AllEntries(x, fates) == RowEntries(x, fates[x.pos]) + AllEntries(AfterRow(x, fates[x.pos]), fates)
  {
  }

  lemma RowsEnd(x: Relay, fates: seq<Fate>)
    requires Fits(x) && |x.selected| <= |fates| && (x.pos == |x.selected| || x.pc.RelayEnded?)
    ensures AfterRows(x, fates) == x && AllEntries(x, fates) == []
  {
  }

  lemma TailUnfold<T>(front: seq<T>, all: seq<T>, pos: nat)
    requires pos < |all|
    ensures front + all[pos..] == front + [all[pos]] + all[pos + 1..]
    ensures all[pos..] == [all[pos]] + all[pos + 1..]
  {
  }

  /** The selected rows from `pos` on whose publish, on a connected bus, raised or did not. */
  function Tried(sel: seq<nat>, fates: seq<Fate>, pos: nat, raised: bool): seq<nat>
    requires pos <= |sel| <= |fates|
    decreases |sel| - pos
  {
    if pos == |sel| then []
    else
      (if fates[pos].connected && fates[pos].raised == raised then [sel[pos]] else [])
      + Tried(sel, fates, pos + 1, raised)
  }

  lemma {:induction false} TriedExactly(sel: seq<nat>, fates: seq<Fate>, pos: nat, raised: bool, r: nat)
    requires pos <= |sel| <= |fates|
    ensures r in Tried(sel, fates, pos, raised) <==>
            exists i | pos <= i < |sel| :: sel[i] == r && fates[i].connected && fates[i].raised == raised
    decreases |sel| - pos
  {
    if pos < |sel| {
      TriedExactly(sel, fates, pos + 1, raised, r);
    }
  }

  /** One row the relay gets to: offline it is skipped; a flush that raises ends the relay; after a publish that
      raised its attempt is counted; otherwise it is marked and audited. */
  ghost predicate RowSettled(x: Relay, y: Relay, f: Fate)
    requires x.pos < |x.selected| && x.selected[x.pos] < |x.loaded|
  {
    var r := x.selected[x.pos];
    && y.selected == x.selected && y.loaded == x.loaded
    && (if f.connected && f.flushFails then y.pc.RelayEnded? else y.pos == x.pos + 1 && y.pc == x.pc)
    && (if f.connected && !f.flushFails && f.raised
        then y.counts == x.counts[r := x.loaded[r].attempts + 1] else y.counts == x.counts)
    && (if f.connected && !f.flushFails && !f.raised then
          && y.marks == x.marks + [r] && |y.stores| == |x.stores| + 1 && y.stores[..|x.stores|] == x.stores
          && Audits(y.stores[|x.stores|], x.loaded[r], r)
        else y.marks == x.marks && y.stores == x.stores)
  }

  /** `y` counts an attempt of each row of `failed` on top of what `x` counted. */
  ghost predicate Counts(x: Relay, y: Relay, failed: seq<nat>) {
    && (forall r | r in failed :: r < |x.loaded| && r in y.counts && y.counts[r] == x.loaded[r].attempts + 1)
    && (forall r | r !in failed :: r in y.counts <==> r in x.counts)
    && (forall r | r !in failed && r in x.counts :: y.counts[r] == x.counts[r])
  }

  lemma AfterRowSettles(x: Relay, f: Fate)
    requires x.pos < |x.selected| && x.selected[x.pos] < |x.loaded| && x.pc.Publishing?
    ensures RowSettled(x, AfterRow(x, f), f)
  {
    StoreRowAudits(x.loaded[x.selected[x.pos]], x.selected[x.pos]);
  }

  /** `y` marks and audits the rows of `shipped`, in order, on top of what `x` did. */
  ghost predicate Ships(x: Relay, y: Relay, shipped: seq<nat>) {
    && y.loaded == x.loaded && |x.marks| == |x.stores| && |y.marks| == |y.stores|
    && y.marks == x.marks + shipped && |y.stores| == |x.stores| + |shipped| && y.stores[..|x.stores|] == x.stores
    && forall i | 0 <= i < |shipped| ::
         shipped[i] < |x.loaded| && Audits(y.stores[|x.stores| + i], x.loaded[shipped[i]], shipped[i])
  }

  lemma CountsThen(x: Relay, mid: Relay, y: Relay, first: seq<nat>, rest: seq<nat>)
    requires Counts(x, mid, first) && Counts(mid, y, rest) && mid.loaded == x.loaded
    ensures Counts(x, y, first + rest)
  {
  }

  lemma ShipsThen(x: Relay, mid: Relay, y: Relay, first: seq<nat>, rest: seq<nat>)
    requires Ships(x, mid, first) && Ships(mid, y, rest)
    ensures Ships(x, y, first + rest)
  {
    hide Audits;
    assert y.stores[..|x.stores|] == y.stores[..|mid.stores|][..|x.stores|];
    forall i | 0 <= i < |first + rest|
      ensures (first + rest)[i] < |x.loaded|
      ensures Audits(y.stores[|x.stores| + i], x.loaded[(first + rest)[i]], (first + rest)[i])
    {
      if i < |first| {
        assert y.stores[|x.stores| + i] == y.stores[..|mid.stores|][|x.stores| + i];
      } else {
        assert y.stores[|x.stores| + i] == y.stores[|mid.stores| + (i - |first|)];
      }
    }
  }

  lemma RowFares(x: Relay, y: Relay, f: Fate)
    requires x.pos < |x.selected| && x.selected[x.pos] < |x.loaded| && |x.marks| == |x.stores|
    requires RowSettled(x, y, f) && !(f.connected && f.flushFails)
    ensures |y.marks| == |y.stores|
    ensures Ships(x, y, if f.connected && !f.raised then [x.selected[x.pos]] else [])
    ensures Counts(x, y, if f.connected && f.raised then [x.selected[x.pos]] else [])
  {
    hide Audits;
  }

  lemma RowMovesOn(x: Relay, y: Relay, f: Fate)
    requires x.pos < |x.selected| && x.selected[x.pos] < |x.loaded| && RowSettled(x, y, f)
    ensures y.selected == x.selected && y.loaded == x.loaded
    ensures if f.connected && f.flushFails then y.pc.RelayEnded? else y.pos == x.pos + 1 && y.pc == x.pc
  {
  }

  lemma NothingFares(x: Relay)
    requires |x.marks| == |x.stores|
    ensures Ships(x, x, []) && Counts(x, x, [])
  {
  }

  /** The writes of a relay that returned: it marks and audits the rows whose publish did not raise, in order,
      and counts an attempt for those whose publish did. */
  lemma {:induction false} RowsFare(x: Relay, fates: seq<Fate>)
    requires Fits(x) && |x.selected| <= |fates| && x.pc.Publishing? && |x.marks| == |x.stores|
    requires !AfterRows(x, fates).pc.RelayEnded?
    ensures Ships(x, AfterRows(x, fates), Tried(x.selected, fates, x.pos, false))
    ensures Counts(x, AfterRows(x, fates), Tried(x.selected, fates, x.pos, true))
    decreases |x.selected| - x.pos
  {
    hide AfterRow, AfterRows, Ships, Counts, RowSettled;
    if x.pos == |x.selected| {
      RowsEnd(x, fates);
      NothingFares(x);
    } else {
      var f := fates[x.pos];
      var next := AfterRow(x, f);
      AfterRowSettles(x, f);
      RowsUnfold(x, fates);
      if f.connected && f.flushFails {
        RowsEnd(next, fates) by { RowMovesOn(x, next, f); }
      } else {
        RowFares(x, next, f);
        RowMovesOn(x, next, f);
        RowsFare(next, fates);
        ShipsThen(x, next, AfterRows(x, fates), if f.connected && !f.raised then [x.selected[x.pos]] else [],
                  Tried(x.selected, fates, x.pos + 1, false));
        CountsThen(x, next, AfterRows(x, fates), if f.connected && f.raised then [x.selected[x.pos]] else [],
                   Tried(x.selected, fates, x.pos + 1, true));
      }
    }
  }

  /** What a relay whose commit took effect leaves of `rows`: those it shipped are published, those it tried in
      vain have one more attempt than when it loaded them, the others are as they were. */
  ghost predicate RowsAfter(rows: seq<Row>, after: seq<Row>, loaded: seq<Row>, shipped: seq<nat>, failed: seq<nat>) {
    && |after| == |rows|
    && forall r | 0 <= r < |rows| ::
         && Key(after[r]) == Key(rows[r])
         && (after[r].published <==> rows[r].published || r in shipped)
         && (r in failed ==> r < |loaded| && after[r].attempts == loaded[r].attempts + 1)
         && (r !in failed ==> after[r].attempts == rows[r].attempts)
  }

  /** It adds an audit row for each it shipped, in order. */
  ghost predicate StoresAfter(store: seq<StoreRow>, after: seq<StoreRow>, loaded: seq<Row>, shipped: seq<nat>) {
    && |after| == |store| + |shipped| && after[..|store|] == store
    && forall i | 0 <= i < |shipped| ::
         shipped[i] < |loaded| && Audits(after[|store| + i], loaded[shipped[i]], shipped[i])
  }

  lemma RowWritesLand(db: Db, x: Relay, y: Relay, shipped: seq<nat>, failed: seq<nat>)
    requires Ships(x, y, shipped) && Counts(x, y, failed) && x.marks == [] && x.counts == map[]
    ensures RowsAfter(db.rows, CommitRelay(db, y).rows, x.loaded, shipped, failed)
  {
    hide Audits;
    assert y.marks == shipped;
  }

  lemma StoreWritesLand(db: Db, x: Relay, y: Relay, shipped: seq<nat>)
    requires Ships(x, y, shipped) && x.stores == []
    ensures StoresAfter(db.store, CommitRelay(db, y).store, x.loaded, shipped)
    ensures CommitRelay(db, y).business == db.business
  {
    hide Audits, MarkRows;
    var after := CommitRelay(db, y).store;
    forall i | 0 <= i < |shipped| ensures Audits(after[|db.store| + i], x.loaded[shipped[i]], shipped[i]) {
      assert after[|db.store| + i] == y.stores[|x.stores| + i];
    }
  }

  lemma CommittedFares(db: Db, rows: seq<Row>, sel: seq<nat>, fates: seq<Fate>)
    requires |sel| <= |fates| && (forall i | 0 <= i < |sel| :: sel[i] < |rows|) && !RowsEscape(sel, fates)
    ensures var after := CommitRelay(db, AfterRows(Fresh(rows, sel), fates));
            && after.business == db.business
            && RowsAfter(db.rows, after.rows, rows, Tried(sel, fates, 0, false), Tried(sel, fates, 0, true))
            && StoresAfter(db.store, after.store, rows, Tried(sel, fates, 0, false))
  {
    hide AfterRows, Ships, Counts, RowsAfter, StoresAfter, CommitRelay;
    var x := Fresh(rows, sel);
    EscapesExactly(x, fates);
    RowsFare(x, fates);
    RowWritesLand(db, x, AfterRows(x, fates), Tried(sel, fates, 0, false), Tried(sel, fates, 0, true));
    StoreWritesLand(db, x, AfterRows(x, fates), Tried(sel, fates, 0, false));
  }

  /** When nothing fails, every selected row is published, marked and audited, in order. */
  lemma {:induction false} SmoothRows(x: Relay, fates: seq<Fate>)
    requires Fits(x) && |x.selected| <= |fates| && x.pc.Publishing?
    requires forall i | 0 <= i < |fates| :: Smooth(fates[i])
    ensures AfterRows(x, fates) == x.(pos := |x.selected|, marks := x.marks + x.selected[x.pos..],
                                      stores := x.stores + StoresFor(x.loaded, x.selected)[x.pos..])
    ensures AllEntries(x, fates) == EntriesFor(x.loaded, x.selected, fates)[x.pos..]
    decreases |x.selected| - x.pos
  {
    hide AfterRows, AllEntries;
    var stores, entries := StoresFor(x.loaded, x.selected), EntriesFor(x.loaded, x.selected, fates);
    if x.pos < |x.selected| {
      var next := AfterRow(x, fates[x.pos]);
      assert Smooth(fates[x.pos]);
      assert stores[x.pos] == StoreRowFor(x.loaded[x.selected[x.pos]], x.selected[x.pos]);
      assert RowEntries(x, fates[x.pos]) == [entries[x.pos]];
      assert next == x.(marks := x.marks + [x.selected[x.pos]], stores := x.stores + [stores[x.pos]], pos := x.pos + 1);
      RowsUnfold(x, fates);
      SmoothRows(next, fates);
      TailUnfold(x.marks, x.selected, x.pos);
      TailUnfold(x.stores, stores, x.pos);
      TailUnfold([], entries, x.pos);
    } else {
      RowsEnd(x, fates);
    }
  }

  /** A fresh relay of `rows` that publishes, marks and audits every row of `sel`, in order. */
  lemma SmoothRelay(rows: seq<Row>, sel: seq<nat>, fates: seq<Fate>)
    requires |sel| <= |fates| && forall i | 0 <= i < |sel| :: sel[i] < |rows|
    requires forall i | 0 <= i < |fates| :: Smooth(fates[i])
    ensures var x := Fresh(rows, sel);
            && AfterRows(x, fates) == x.(pos := |sel|, marks := sel, stores := StoresFor(rows, sel))
            && AllEntries(x, fates) == EntriesFor(rows, sel, fates)
  {
    hide AfterRows, AllEntries, RowEntry, StoreRowFor;
    SmoothRows(Fresh(rows, sel), fates);
    assert [] + sel[0..] == sel && [] + StoresFor(rows, sel)[0..] == StoresFor(rows, sel);
    assert EntriesFor(rows, sel, fates)[0..] == EntriesFor(rows, sel, fates);
  }

  function Fresh(rows: seq<Row>, sel: seq<nat>): Relay {
    Outbox.Relay(rows, sel, 0, [], [], map[], Publishing)
  }

  predicate AllSmooth(fates: seq<Fate>) {
    forall i | 0 <= i < |fates| :: Smooth(fates[i])
  }

  /** What a relay that nothing disturbs does: it publishes, marks and audits the rows of `sel`. */
  predicate Relayed(w: World, v: World, sel: seq<nat>, fates: seq<Fate>) {
    && |sel| <= |fates| && (forall i | 0 <= i < |sel| :: sel[i] < |w.db.rows|)
    && v.db == Db(w.db.business, MarkRows(w.db.rows, sel, map[]), w.db.store + StoresFor(w.db.rows, sel))
    && v.log == w.log + EntriesFor(w.db.rows, sel, fates)
  }

  lemma {:induction false} EndsAtTheEnd(x: Relay, fates: seq<Fate>)
    requires Fits(x) && |x.selected| <= |fates| && x.pc.Publishing? && !AfterRows(x, fates).pc.RelayEnded?
    ensures AfterRows(x, fates).pc.Publishing? && AfterRows(x, fates).pos == |AfterRows(x, fates).selected|
    decreases |x.selected| - x.pos
  {
    if x.pos < |x.selected| {
      EndsAtTheEnd(AfterRow(x, fates[x.pos]), fates);
    }
  }

  /** A flush raises for one of the rows the relay gets to, which ends it. */
  predicate RowsEscape(sel: seq<nat>, fates: seq<Fate>)
    requires |sel| <= |fates|
  {
    exists i | 0 <= i < |sel| :: fates[i].connected && fates[i].flushFails
  }

  lemma {:induction false} EscapesExactly(x: Relay, fates: seq<Fate>)
    requires Fits(x) && |x.selected| <= |fates| && x.pc.Publishing?
    ensures AfterRows(x, fates).pc.RelayEnded? <==>
            exists i | x.pos <= i < |x.selected| :: fates[i].connected && fates[i].flushFails
    decreases |x.selected| - x.pos
  {
    if x.pos < |x.selected| {
      hide AfterRows;
      var next := AfterRow(x, fates[x.pos]);
      RowsUnfold(x, fates);
      if next.pc.RelayEnded? {
        RowsEnd(next, fates);
      } else {
        EscapesExactly(next, fates);
      }
    }
  }

  /** A durable unit of work that nothing disturbs: unit `u`'s writes and rows are committed, then the
      oldest pending rows are relayed. */
  predicate DurableCommit(w: World, v: World, u: nat, sel: seq<nat>, fates: seq<Fate>) {
    && u < |w.units|
    && var x := w.units[u];
       var rows := w.db.rows + x.staged;
       && IsSelection(rows, sel, 100)
       && Relayed(w.(db := Db(w.db.business + Written(x.writes, u), rows, w.db.store)), v, sel, fates)
  }

  class DurableSession {
    const p: Prefixes
    var world: World

    constructor (p: Prefixes)
      ensures this.p == p && world == Nothing()
    {
      this.p, world := p, Nothing();
    }

    /** While the owner awaits, others make the moves of `schedule` that are possible. */
    method Others(schedule: seq<Move>, mine: Owner, ghost before: World)
      requires Reaches(Producer(p), before, world) && Owns(world, mine)
      modifies this
      ensures Reaches(Producer(p), before, world) && Owns(world, mine)
      ensures SameRecord(old(world), world, mine) && ClosedKept(old(world), world)
      ensures schedule == [] ==> world == old(world)
    {
      for i := 0 to |schedule|
        invariant Reaches(Producer(p), before, world) && SameRecord(old(world), world, mine)
        invariant ClosedKept(old(world), world)
        invariant schedule == [] ==> world == old(world)
      {
        hide Valid, Final;
        if CanMove(p, world, schedule[i]) && Foreign(schedule[i], mine) {
          ForeignKeepsRecord(p, world, schedule[i], mine);
          DoKeepsClosed(p, world, schedule[i]);
          ReachesStep(Producer(p), before, world, schedule[i]);
          world := Do(p, world, schedule[i]);
        }
      }
    }

    method Perform(m: Move, ghost before: World)
      requires Reaches(Producer(p), before, world) && CanMove(p, world, m)
      modifies this
      ensures world == Do(p, old(world), m) && Reaches(Producer(p), before, world) && ClosedKept(old(world), world)
    {
      DoKeepsClosed(p, world, m);
      ReachesStep(Producer(p), before, world, m);
      world := Do(p, world, m);
    }

    /** After a publish that raised: count the attempt; otherwise mark the row and write the audit row. */
    method SettleRow(k: nat, raised: bool, flushFails: bool, ghost before: World)
      requires Reaches(Producer(p), before, world)
      requires AtRow(world, k, if raised then Counting else Marking)
      modifies this
      ensures Reaches(Producer(p), before, world)
      ensures world == old(world).(relays := old(world).relays[k := Settled(old(world).relays[k], raised, flushFails)])
    {
      hide Valid, Final;
      if flushFails {
        Perform(AbandonRelay(k), before);
      } else if raised {
        Perform(RelayCount(k), before);
      } else {
        Perform(RelayMark(k), before);
        Perform(RelayStore(k), before);
      }
    }

    /** `_relay_outbox_row` */
    method RelayOutboxRow(k: nat, f: Fate, ghost before: World)
      returns (escaped: bool)
      requires Reaches(Producer(p), before, world) && Possible(f)
      requires AtRow(world, k, Publishing)
      modifies this
      ensures Reaches(Producer(p), before, world)
      ensures k < |world.relays| && world.relays[k] == AfterRow(old(world.relays[k]), f)
      ensures RowSettled(old(world.relays[k]), world.relays[k], f)
      ensures escaped == (f.connected && f.flushFails) && ClosedKept(old(world), world)
      ensures f.before == [] && f.during == [] ==>
                world == old(world).(log := old(world).log + RowEntries(old(world).relays[k], f),
                                     relays := old(world).relays[k := AfterRow(old(world).relays[k], f)])
    {
      hide Valid, Final, Audits, RowSettled, StoreRowFor, RowBytes;
      ghost var x := world.relays[k];
      AfterRowSettles(x, f);
      if !f.connected {
        Perform(RelaySkip(k), before);
        return false;
      }
      Others(f.before, OfRelay(k), before);
      Perform(RelayPublish(k, f.stored, f.raised, f.spelling), before);
      ghost var y := world.relays[k];
      assert y == x.(pc := if f.raised then Counting else Marking);
      Others(f.during, OfRelay(k), before);
      SettleRow(k, f.raised, f.flushFails, before);
      escaped := f.flushFails;
    }

    /** `relay_pending_outbox` for the rows relay `k` selected. */
    method RelayPendingOutbox(k: nat, fates: seq<Fate>, ghost before: World)
      returns (escaped: bool)
      requires Reaches(Producer(p), before, world) && k < |world.relays|
      requires world.relays[k].pc.Publishing? && world.relays[k].pos == 0 && Fits(world.relays[k])
      requires |world.relays[k].selected| <= |fates| && forall i | 0 <= i < |fates| :: Possible(fates[i])
      modifies this
      ensures Reaches(Producer(p), before, world) && ClosedKept(old(world), world)
      ensures k < |world.relays| && world.relays[k] == AfterRows(old(world.relays[k]), fates)
      ensures escaped == world.relays[k].pc.RelayEnded?
      ensures Quiet(fates) ==>
                world == old(world).(log := old(world).log + AllEntries(old(world).relays[k], fates),
                                     relays := old(world).relays[k := world.relays[k]])
    {
      hide Valid, Final, AfterRows, AllEntries, RowEntries, Producer;
      escaped := false;
      ghost var x := world.relays[k];
      while !escaped && world.relays[k].pos < |world.relays[k].selected|
        invariant Reaches(Producer(p), before, world) && ClosedKept(old(world), world)
        invariant k < |world.relays| && Fits(world.relays[k]) && |world.relays[k].selected| <= |fates|
        invariant escaped == world.relays[k].pc.RelayEnded? && (!escaped ==> world.relays[k].pc.Publishing?)
        invariant AfterRows(world.relays[k], fates) == AfterRows(x, fates)
        invariant Quiet(fates) ==>
                    && world == old(world).(log := world.log, relays := old(world).relays[k := world.relays[k]])
                    && world.log + AllEntries(world.relays[k], fates) == old(world).log + AllEntries(x, fates)
        decreases |world.relays[k].selected| - world.relays[k].pos, !escaped
      {
        ghost var y, log := world.relays[k], world.log;
        RowsUnfold(y, fates);
        var f := fates[world.relays[k].pos];
        escaped := RelayOutboxRow(k, f, before);
        assert log + (RowEntries(y, f) + AllEntries(world.relays[k], fates)) ==
               log + RowEntries(y, f) + AllEntries(world.relays[k], fates);
      }
      RowsEnd(world.relays[k], fates);
    }

    /** The relay session: commit it if the relay returned, else it is rolled back. `last` is the world its
        commit finds: a relay that returned and whose commit took effect adds its writes to that database, and
        any other adds nothing, so without other moves it leaves the database as it was. */
    method RelayAndCommit(k: nat, sel: seq<nat>, fates: seq<Fate>, f: RelayFate, ghost before: World)
      returns (failed: bool, ghost last: World)
      requires Reaches(Producer(p), before, world) && k < |world.relays| && PossibleCommit(f.commit)
      requires world.relays[k] == Fresh(world.db.rows, sel) && (forall i | 0 <= i < |sel| :: sel[i] < |world.db.rows|)
      requires |sel| <= |fates| && forall i | 0 <= i < |fates| :: Possible(fates[i])
      modifies this
      ensures Reaches(Producer(p), before, last) && Reaches(Producer(p), before, world) && ClosedKept(old(world), world)
      ensures failed <==> RowsEscape(sel, fates) || f.commit.raised
      ensures var x := AfterRows(Fresh(old(world).db.rows, sel), fates);
              var commits := !RowsEscape(sel, fates) && f.commit.applied;
              && k < |last.relays| && last.relays[k] == x && world.log == last.log
              && world.db == (if commits then CommitRelay(last.db, x) else last.db)
              && (Quiet(fates) && f.before == [] ==> last.db == old(world).db)
              && (commits ==>
                    && world.db.business == last.db.business
                    && RowsAfter(last.db.rows, world.db.rows, old(world).db.rows, Tried(sel, fates, 0, false),
                                 Tried(sel, fates, 0, true))
                    && StoresAfter(last.db.store, world.db.store, old(world).db.rows, Tried(sel, fates, 0, false)))
      ensures SmoothCommit(f.commit) && f.before == [] && AllSmooth(fates) ==> Relayed(old(world), world, sel, fates)
    {
      hide Valid, Final, AfterRows, AllEntries, StoresFor, EntriesFor, RowsAfter, StoresAfter;
      ghost var x := world.relays[k];
      failed := RelayPendingOutbox(k, fates, before);
      last := world;
      EscapesExactly(x, fates);
      if AllSmooth(fates) {
        SmoothRelay(x.loaded, sel, fates);
      }
      if !failed {
        EndsAtTheEnd(x, fates);
        Others(f.before, OfRelay(k), before);
        last := world;
        CommittedFares(world.db, x.loaded, sel, fates);
        Perform(RelayCommit(k, f.commit.applied, f.commit.raised), before);
        failed := f.commit.raised;
      }
    }

    /** `durable_unit_of_work` from the end of its body on. The request fails exactly when its own commit
        raises, or closing one of the two sessions does, or the relay fails and its rollback raises too; any
        other failure of the relay is swallowed. When nothing fails, the unit's writes and rows are committed
        and the oldest pending rows are published, marked and audited, in order of age. */
    method DurableUnitOfWork(u: nat, f: UnitFate, waits: seq<Move>, fates: seq<Fate>, r: RelayFate)
      returns (raised: bool, relayFailed: bool, sel: seq<nat>)
      requires OpenUnit(world, u) && PossibleCommit(f.commit) && PossibleCommit(r.commit)
      requires 100 <= |fates| && forall i | 0 <= i < |fates| :: Possible(fates[i])
      modifies this
      ensures Reaches(Producer(p), old(world), world) && |sel| <= 100
      ensures relayFailed <==> !f.commit.raised && (r.loadRaised || RowsEscape(sel, fates) || r.commit.raised)
      ensures raised <==>
              || f.commit.raised || f.closeRaised
              || (!f.commit.raised && (r.closeRaised || (relayFailed && r.rollbackRaised)))
      ensures u < |world.units| && world.units[u] == old(world.units[u]).(pc := Closed, applied := f.commit.applied)
      ensures SmoothUnit(f) && waits == [] && SmoothSession(r) && AllSmooth(fates) ==>
                DurableCommit(old(world), world, u, sel, fates)
    {
      hide Valid, Final, MarkRows, StoresFor, EntriesFor, Do, CanMove, Written, IsSelection;
      ghost var before := world;
      ReachesRefl(Producer(p), world);
      CommitUnit(u, f, before);
      if f.commit.raised {
        return true, false, [];
      }
      Others(waits, OfUnit(u), before);
      if r.loadRaised {
        CloseUnit(u, before);
        sel, relayFailed := [], true;
      } else {
        sel := StartRelaySession(u, before);
        ghost var last;
        relayFailed, last := RelayAndCommit(|world.relays| - 1, sel, fates, r, before);
      }
      raised := f.closeRaised || r.closeRaised || (relayFailed && r.rollbackRaised);
    }

    /** The commit at the end of the body. */
    method CommitUnit(u: nat, f: UnitFate, ghost before: World)
      requires Reaches(Producer(p), before, world) && OpenUnit(world, u) && PossibleCommit(f.commit)
      modifies this
      ensures Reaches(Producer(p), before, world) && u < |world.units|
      ensures world.units[u] ==
              old(world.units[u]).(pc := if f.commit.raised then Closed else Committed, applied := f.commit.applied)
      ensures SmoothUnit(f) ==>
                var db, x := old(world.db), old(world.units[u]);
                && world.db == Db(db.business + Written(x.writes, u), db.rows + x.staged, db.store)
                && world.log == old(world.log)
    {
      hide Valid, Final;
      Others(f.before, OfUnit(u), before);
      Perform(Commit(u, f.commit.applied, f.commit.raised), before);
    }

    /** The unit ends without a relay. */
    method CloseUnit(u: nat, ghost before: World)
      requires Reaches(Producer(p), before, world) && u < |world.units| && world.units[u].pc.Committed?
      modifies this
      ensures Reaches(Producer(p), before, world)
      ensures world == old(world).(units := old(world).units[u := old(world).units[u].(pc := Closed)])
    {
      hide Valid, Final;
      Perform(AbandonUnit(u), before);
    }

    method StartRelaySession(u: nat, ghost before: World) returns (sel: seq<nat>)
      requires Reaches(Producer(p), before, world) && u < |world.units| && world.units[u].pc.Committed?
      modifies this
      ensures Reaches(Producer(p), before, world) && IsSelection(world.db.rows, sel, 100)
      ensures |sel| <= 100 && forall i | 0 <= i < |sel| :: sel[i] < |world.db.rows|
      ensures world == old(world).(units := old(world).units[u := old(world).units[u].(pc := Closed)],
                                   relays := old(world).relays + [Fresh(world.db.rows, sel)])
    {
      hide Valid, Final, Oldest;
      sel := Oldest(world.db.rows, BATCH);
      OldestSelects(world.db.rows, BATCH);
      Perform(StartRelay(u, sel), before);
    }
  }
}
