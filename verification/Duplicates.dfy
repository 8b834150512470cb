/** When a row is published at most once. Relays take no row lock, a publish may be stored and raise, and a
    relay's marks are lost with its session. */
module Duplicates {
  import opened Outbox
  import opened OutboxSafety
  import opened Runs
  import opened Subjects
  import opened Wire

  /** Relay `x` is at work with row `r` selected. */
  predicate Holds(x: Relay, r: nat) {
    !x.pc.RelayEnded? && r in x.selected
  }

  /** Relay `x` had a publish of row `r` that returned. */
  predicate Stored(x: Relay, r: nat) {
    r in x.selected && (r in x.marks || (x.pc.Marking? && x.pos < |x.selected| && x.selected[x.pos] == r))
  }

  /** What can publish a row twice: two relays that hold it at the same time, a publish that is stored and
      raises, or a relay that ends after a publish returned without committing its mark. */
  datatype Lapse = Concurrent | StoredAndRaised | MarkLost

  predicate Commits(w: World, m: Move, r: nat, lapse: Lapse) {
    match lapse
    case Concurrent =>
      m.StartRelay? && r in m.selected && exists k | 0 <= k < |w.relays| :: Holds(w.relays[k], r)
    case StoredAndRaised =>
      && m.RelayPublish? && AtRow(w, m.relay, Publishing) && Current(w.relays[m.relay]) == r
      && m.stored && m.raised
    case MarkLost =>
      && (m.AbandonRelay? || (m.RelayCommit? && !m.applied))
      && m.relay < |w.relays| && Stored(w.relays[m.relay], r)
  }

  ghost predicate Behaves(w: World, m: Move, r: nat, allowed: Option<Lapse>) {
    forall lapse :: Some(lapse) != allowed ==> !Commits(w, m, r, lapse)
  }

  /** The producer side with no lapse on row `r`, except the one allowed. */
  ghost function Careful(p: Prefixes, r: nat, allowed: Option<Lapse>): Machine<World, Move> {
    Machine((w, m) => CanMove(p, w, m) && Behaves(w, m, r, allowed), (w, m) => Do(p, w, m))
  }

  ghost predicate AtMostOnce(w: World, r: nat) {
    forall i, j | 0 <= i < j < |w.log| :: !(w.log[i].source == Some(r) == w.log[j].source)
  }

  ghost predicate OneHolder(w: World, r: nat) {
    forall k, l | 0 <= k < l < |w.relays| :: !(Holds(w.relays[k], r) && Holds(w.relays[l], r))
  }

  /** A row on the stream is marked published, or the relay that published it is still at work. */
  ghost predicate Remembered(w: World, r: nat) {
    Logged(w, r) ==>
      || (r < |w.db.rows| && w.db.rows[r].published)
      || exists k :: 0 <= k < |w.relays| && Holds(w.relays[k], r) && Stored(w.relays[k], r)
  }

  /** From where on the rows of a relay have not been stored by it. */
  function Next(x: Relay): nat {
    if x.pc.Marking? || x.pc.Storing? then x.pos + 1 else x.pos
  }

  predicate ToCome(x: Relay, r: nat) {
    !x.pc.RelayEnded? && exists i :: Next(x) <= i < |x.selected| && x.selected[i] == r
  }

  /** A row some relay has yet to publish is not on the stream. */
  ghost predicate NotAhead(w: World, r: nat) {
    forall k | 0 <= k < |w.relays| && ToCome(w.relays[k], r) :: !Logged(w, r)
  }

  ghost predicate Once(w: World, r: nat) {
    && AtMostOnce(w, r) && OneHolder(w, r) && Remembered(w, r) && NotAhead(w, r)
    && forall k | 0 <= k < |w.relays| :: Distinct(w.relays[k].selected)
  }

  lemma CarefulMove(w: World, m: Move, r: nat)
    requires Behaves(w, m, r, None)
    ensures !Commits(w, m, r, Concurrent) && !Commits(w, m, r, StoredAndRaised) && !Commits(w, m, r, MarkLost)
  {
  }

  /** What one relay's move does to its own record. */
  lemma RelayMove(p: Prefixes, w: World, m: Move, k: nat, r: nat)
    requires CanMove(p, w, m) && Behaves(w, m, r, None) && k < |w.relays| && OnRelay(m, k)
    requires Distinct(w.relays[k].selected)
    ensures var v, x := Do(p, w, m), w.relays[k];
            && |v.relays| == |w.relays| && (forall l | 0 <= l < |w.relays| && l != k :: v.relays[l] == w.relays[l])
            && var y := v.relays[k];
               && y.selected == x.selected
               && (ToCome(y, r) ==> ToCome(x, r))
               && (Holds(y, r) ==> Holds(x, r))
               && (Stored(x, r) ==> Stored(y, r) && (Holds(y, r) || MarkedBy(w, v, k, r)))
  {
    hide Behaves, IsSelection, RowBytes;
    CarefulMove(w, m, r);
  }

  /** The move committed relay `k`'s mark of row `r`. */
  predicate MarkedBy(w: World, v: World, k: nat, r: nat) {
    && k < |w.relays| && r in w.relays[k].marks
    && |v.db.rows| == |w.db.rows| && (r < |v.db.rows| ==> v.db.rows[r].published)
  }

  /** What a move adds to the stream for row `r`: at most one message, that of a row still to come. */
  lemma LogMove(p: Prefixes, w: World, m: Move, r: nat)
    requires CanMove(p, w, m) && Behaves(w, m, r, None)
    requires forall k | 0 <= k < |w.relays| :: Distinct(w.relays[k].selected)
    ensures var v := Do(p, w, m);
            || v.log == w.log
            || (|v.log| == |w.log| + 1 && v.log[..|w.log|] == w.log &&
                (v.log[|w.log|].source == Some(r) ==>
                   && m.RelayPublish? && m.relay < |w.relays| && m.relay < |v.relays|
                   && ToCome(w.relays[m.relay], r) && !ToCome(v.relays[m.relay], r)
                   && Holds(v.relays[m.relay], r) && Stored(v.relays[m.relay], r)
                   && Holds(w.relays[m.relay], r)))
  {
    hide Behaves, IsSelection, RowBytes;
    CarefulMove(w, m, r);
    if m.RelayPublish? && m.stored {
      var x := w.relays[m.relay];
      assert x.selected[x.pos] == Current(x);
    }
  }

  predicate IsRelayMove(m: Move) {
    || m.RelayPublish? || m.RelaySkip? || m.RelayMark? || m.RelayStore? || m.RelayCount? || m.RelayCommit?
    || m.AbandonRelay?
  }

  /** Moves that are not a relay's own leave relays, log and published marks alone, except that a relay may start. */
  lemma OtherMove(p: Prefixes, w: World, m: Move)
    requires CanMove(p, w, m) && !IsRelayMove(m)
    ensures var v := Do(p, w, m);
            && (!m.StartRelay? ==> v.relays == w.relays)
            && (m.StartRelay? ==>
                  && v.relays == w.relays + [Relay(w.db.rows, m.selected, 0, [], [], map[], Publishing)]
                  && v.log == w.log && v.db == w.db)
  {
    hide IsSelection, RowBytes, StagedRow;
  }

  lemma PublishedKept(p: Prefixes, w: World, m: Move, r: nat)
    requires CanMove(p, w, m) && r < |w.db.rows| && w.db.rows[r].published
    ensures r < |Do(p, w, m).db.rows| && Do(p, w, m).db.rows[r].published
  {
    hide IsSelection, RowBytes, StagedRow;
  }

  lemma StartKeepsOnce(p: Prefixes, w: World, m: Move, r: nat)
    requires Once(w, r) && CanMove(p, w, m) && Behaves(w, m, r, None) && m.StartRelay?
    ensures Once(Do(p, w, m), r)
  {
    hide Behaves, RowBytes, MarkRows;
    CarefulMove(w, m, r);
    OtherMove(p, w, m);
    var v := Do(p, w, m);
    var n := |w.relays|;
    assert v.relays[n].selected == m.selected && Distinct(m.selected);
    if r in m.selected {
      assert !w.db.rows[r].published;
      assert !Logged(w, r);
    }
    assert Logged(v, r) <==> Logged(w, r);
    assert ToCome(v.relays[n], r) ==> r in m.selected;
    if Logged(w, r) && !(r < |w.db.rows| && w.db.rows[r].published) {
      var k :| 0 <= k < |w.relays| && Holds(w.relays[k], r) && Stored(w.relays[k], r);
      assert v.relays[k] == w.relays[k];
    }
  }

  lemma QuietRelayKeepsOnce(p: Prefixes, w: World, m: Move, k: nat, r: nat)
    requires Safe(w) && Once(w, r) && CanMove(p, w, m) && Behaves(w, m, r, None) && k < |w.relays| && OnRelay(m, k)
    requires var v := Do(p, w, m);
             || v.log == w.log
             || (|v.log| == |w.log| + 1 && v.log[..|w.log|] == w.log && v.log[|w.log|].source != Some(r))
    ensures Once(Do(p, w, m), r)
  {
    var v, x := Do(p, w, m), w.relays[k];
    RelayMove(p, w, m, k, r);
    SameLogged(w, v, r);
    if Logged(w, r) {
      RememberedStays(p, w, m, k, r);
    }
    hide Behaves, CanMove, Do, Stored, Safe, Logged, AtMostOnce, Holds, ToCome;
  }

  lemma PublishKeepsOnce(p: Prefixes, w: World, m: Move, k: nat, r: nat)
    requires Once(w, r) && CanMove(p, w, m) && Behaves(w, m, r, None) && k < |w.relays| && OnRelay(m, k)
    requires var v := Do(p, w, m);
             |v.log| == |w.log| + 1 && v.log[..|w.log|] == w.log && v.log[|w.log|].source == Some(r)
    ensures Once(Do(p, w, m), r)
  {
    var v := Do(p, w, m);
    RelayMove(p, w, m, k, r);
    LogMove(p, w, m, r);
    assert k == m.relay;
    hide Behaves, CanMove, Do, Stored;
    assert !Logged(w, r);
    FirstEntry(w, v, r);
    forall l | 0 <= l < |v.relays| ensures !ToCome(v.relays[l], r) {
      if l != k {
        assert v.relays[l] == w.relays[l] && Holds(w.relays[k], r);
        assert !Holds(w.relays[l], r) by { assert l < k || k < l; }
      }
    }
  }

  lemma RelayKeepsOnce(p: Prefixes, w: World, m: Move, k: nat, r: nat)
    requires Safe(w) && Once(w, r) && CanMove(p, w, m) && Behaves(w, m, r, None) && k < |w.relays| && OnRelay(m, k)
    ensures Once(Do(p, w, m), r)
  {
    LogMove(p, w, m, r);
    hide Behaves, CanMove, Do, Safe, AtMostOnce, OneHolder, Remembered, NotAhead;
    var v := Do(p, w, m);
    if v.log == w.log || v.log[|w.log|].source != Some(r) {
      QuietRelayKeepsOnce(p, w, m, k, r);
    } else {
      PublishKeepsOnce(p, w, m, k, r);
    }
  }

  lemma SameLogged(w: World, v: World, r: nat)
    requires v.log == w.log || (|v.log| == |w.log| + 1 && v.log[..|w.log|] == w.log && v.log[|w.log|].source != Some(r))
    ensures Logged(v, r) <==> Logged(w, r)
    ensures AtMostOnce(w, r) ==> AtMostOnce(v, r)
  {
    forall i | 0 <= i < |w.log| ensures v.log[i] == w.log[i] {
      assert v.log[..|w.log|][i] == w.log[i];
    }
  }

  lemma FirstEntry(w: World, v: World, r: nat)
    requires |v.log| == |w.log| + 1 && v.log[..|w.log|] == w.log && !Logged(w, r)
    ensures AtMostOnce(v, r)
  {
    forall i | 0 <= i < |w.log| ensures v.log[i].source != Some(r) {
      assert v.log[..|w.log|][i] == w.log[i];
    }
  }

  lemma RememberedStays(p: Prefixes, w: World, m: Move, k: nat, r: nat)
    requires Safe(w) && Once(w, r) && CanMove(p, w, m) && Behaves(w, m, r, None) && k < |w.relays| && OnRelay(m, k)
    requires Logged(w, r)
    ensures var v := Do(p, w, m);
            || (r < |v.db.rows| && v.db.rows[r].published)
            || exists l :: 0 <= l < |v.relays| && Holds(v.relays[l], r) && Stored(v.relays[l], r)
  {
    var v := Do(p, w, m);
    if r < |w.db.rows| && w.db.rows[r].published {
      PublishedKept(p, w, m, r);
    } else {
      var l :| 0 <= l < |w.relays| && Holds(w.relays[l], r) && Stored(w.relays[l], r);
      RelayMove(p, w, m, k, r);
      assert RelayFine(w, k);
      hide Behaves, CanMove, Do, Stored, StagedRow;
      if l == k {
        LoggedRowExists(w, r);
        assert Holds(v.relays[k], r) || MarkedBy(w, v, k, r);
      } else {
        assert v.relays[l] == w.relays[l];
      }
    }
  }

  lemma LoggedRowExists(w: World, r: nat)
    requires Safe(w) && Logged(w, r)
    ensures r < |w.db.rows|
  {
    var i :| 0 <= i < |w.log| && w.log[i].source == Some(r);
    assert EntryOk(w, i);
  }

  lemma MoveKeepsOnce(p: Prefixes, w: World, m: Move, r: nat)
    requires Safe(w) && Once(w, r) && CanMove(p, w, m) && Behaves(w, m, r, None)
    ensures Once(Do(p, w, m), r)
  {
    if IsRelayMove(m) {
      RelayKeepsOnce(p, w, m, m.relay, r);
    } else if m.StartRelay? {
      StartKeepsOnce(p, w, m, r);
    } else {
      OtherMove(p, w, m);
      LogMove(p, w, m, r);
      SameLogged(w, Do(p, w, m), r);
      if r < |w.db.rows| && w.db.rows[r].published {
        PublishedKept(p, w, m, r);
      }
      hide Behaves, CanMove, Do;
    }
  }

  /** A row on which none of the three lapses happens is published at most once, whatever happens to all
      others, in every state such a run leads to. */
  lemma PublishedOnce(p: Prefixes, w: World, r: nat)
    requires Reaches(Careful(p, r, None), Nothing(), w)
    ensures AtMostOnce(w, r)
  {
    hide CanMove, Do, Behaves, Safe, AtMostOnce, OneHolder, Remembered, NotAhead;
    forall v, m | (Safe(v) && Once(v, r)) && CanMove(p, v, m) && Behaves(v, m, r, None)
      ensures Safe(Do(p, v, m)) && Once(Do(p, v, m), r)
    {
      MoveKeepsSafe(p, v, m);
      MoveKeepsOnce(p, v, m, r);
    }
    StartsOnce(r);
    var machine := Careful(p, r, None);
    var moves :| Valid(machine, Nothing(), moves) && Final(machine, Nothing(), moves) == w;
    InvariantHolds(machine, v => Safe(v) && Once(v, r), Nothing(), moves);
  }

  lemma StartsOnce(r: nat)
    ensures Safe(Nothing()) && Once(Nothing(), r)
  {
  }

  /** `v` follows `w` by a move with no lapse on row 0 but the allowed one. */
  lemma Then(p: Prefixes, allowed: Lapse, w: World, m: Move, v: World)
    requires Reaches(Careful(p, 0, Some(allowed)), Nothing(), w)
    requires CanMove(p, w, m) && Behaves(w, m, 0, Some(allowed)) && Do(p, w, m) == v
    ensures Reaches(Careful(p, 0, Some(allowed)), Nothing(), v)
  {
    ReachesStep(Careful(p, 0, Some(allowed)), Nothing(), w, m);
  }

  function Done(staged: seq<Row>): Unit {
    Unit([], staged, Closed, true)
  }

  function Selecting(r: Row, pc: RelayPc): Relay {
    Relay([r], [0], 0, [], [], map[], pc)
  }

  function EntryOf(r: Row, spelling: nat): Entry {
    Entry(Delivery.Message(r.subject, RowBytes(r, spelling)), Some(0))
  }

  lemma OneUnitCommitted(p: Prefixes, a: Lapse)
    ensures Reaches(Careful(p, 0, Some(a)), Nothing(),
                    World(Db([], [], []), [], [Unit([], [], Open, false), Unit([], [], Committed, true)], []))
  {
    var w, open := Nothing(), Unit([], [], Open, false);
    ReachesRefl(Careful(p, 0, Some(a)), w);
    hide Reaches;
    Then(p, a, w, Begin, w.(units := [open]));
    Then(p, a, w.(units := [open]), Begin, w.(units := [open, open]));
    Then(p, a, w.(units := [open, open]), Commit(1, true, false), w.(units := [open, Unit([], [], Committed, true)]));
  }

  /** Two units committed, the first with a row. */
  function TwoUnits(r: Row): World {
    World(Db([], [r], []), [], [Unit([], [r], Committed, true), Unit([], [], Committed, true)], [])
  }

  lemma TwoUnitsHappen(p: Prefixes, a: Lapse, e: Event, r: Row)
    requires StagedRow(p, Instance(e), 0, 0) == Success(Some(r))
    ensures Reaches(Careful(p, 0, Some(a)), Nothing(), TwoUnits(r))
  {
    hide Reaches, StagedRow;
    OneUnitCommitted(p, a);
    assert [] + [r] == [r];
    var w, b := Nothing(), Unit([], [], Committed, true);
    var staged := w.(units := [Unit([], [r], Open, false), b]);
    Then(p, a, w.(units := [Unit([], [], Open, false), b]), Stage(0, Instance(e), 0), staged);
    Then(p, a, staged, Commit(0, true, false), TwoUnits(r));
  }

  /** The first unit's relay has selected the row. */
  function FirstSelected(r: Row): World {
    World(Db([], [r], []), [], [Done([r]), Unit([], [], Committed, true)], [Selecting(r, Publishing)])
  }

  lemma FirstSelects(p: Prefixes, a: Lapse, e: Event, r: Row)
    requires StagedRow(p, Instance(e), 0, 0) == Success(Some(r))
    ensures Reaches(Careful(p, 0, Some(a)), Nothing(), FirstSelected(r))
  {
    TwoUnitsHappen(p, a, e, r);
    hide Reaches;
    Then(p, a, TwoUnits(r), StartRelay(0, [0]), FirstSelected(r));
  }

  /** The second unit's relay finds the row pending as well, and publishes it. */
  lemma SecondPublishes(p: Prefixes, a: Lapse, w: World, x: Row, spelling: nat) returns (v: World)
    requires Reaches(Careful(p, 0, Some(a)), Nothing(), w) && w.db.rows == [x] && !x.published
    requires |w.units| == 2 && w.units[1].pc.Committed? && |w.relays| == 1
    requires a == Concurrent || w.relays[0].pc.RelayEnded?
    ensures Reaches(Careful(p, 0, Some(a)), Nothing(), v) && v.db == w.db
    ensures v.log == w.log + [EntryOf(x, spelling)]
  {
    hide Reaches, RowBytes;
    var selected := w.(units := w.units[1 := w.units[1].(pc := Closed)],
        relays := w.relays + [Selecting(x, Publishing)]);
    Then(p, a, w, StartRelay(1, [0]), selected);
    v := Do(p, selected, RelayPublish(1, true, false, spelling));
    Then(p, a, selected, RelayPublish(1, true, false, spelling), v);
  }

  /** The first relay's publish was stored. */
  function FirstPublished(r: Row, spelling: nat, raised: bool): World {
    FirstSelected(r).(log := [EntryOf(r, spelling)], relays := [Selecting(r, if raised then Counting else Marking)])
  }

  lemma FirstPublishes(p: Prefixes, a: Lapse, e: Event, r: Row, spelling: nat, raised: bool)
    requires StagedRow(p, Instance(e), 0, 0) == Success(Some(r)) && (raised ==> a == StoredAndRaised)
    ensures Reaches(Careful(p, 0, Some(a)), Nothing(), FirstPublished(r, spelling, raised))
  {
    FirstSelects(p, a, e, r);
    hide Reaches, RowBytes, StagedRow;
    assert [] + [EntryOf(r, spelling)] == [EntryOf(r, spelling)];
    Then(p, a, FirstSelected(r), RelayPublish(0, true, raised, spelling), FirstPublished(r, spelling, raised));
  }

  lemma ConcurrentRelays(p: Prefixes, e: Event, r: Row, spelling: nat) returns (w: World)
    requires StagedRow(p, Instance(e), 0, 0) == Success(Some(r))
    ensures Reaches(Careful(p, 0, Some(Concurrent)), Nothing(), w)
    ensures w.db.rows == [r] && w.log == [EntryOf(r, spelling), EntryOf(r, spelling)]
  {
    FirstPublishes(p, Concurrent, e, r, spelling, false);
    assert !r.published;
    hide Reaches, RowBytes, StagedRow;
    w := SecondPublishes(p, Concurrent, FirstPublished(r, spelling, false), r, spelling);
  }

  /** The relay that counted the failed publish committed. */
  lemma FailureCounted(p: Prefixes, a: Lapse, r: Row, spelling: nat) returns (w: World)
    requires Reaches(Careful(p, 0, Some(a)), Nothing(), FirstPublished(r, spelling, true)) && r.attempts == 0
    ensures Reaches(Careful(p, 0, Some(a)), Nothing(), w)
    ensures w.db.rows == [r.(attempts := 1)] && w.log == [EntryOf(r, spelling)]
    ensures w.units == FirstSelected(r).units && |w.relays| == 1 && w.relays[0].pc.RelayEnded?
  {
    hide Reaches, RowBytes;
    var failed := FirstPublished(r, spelling, true);
    var counted := failed.(relays := [Selecting(r, Publishing).(pos := 1, counts := map[0 := 1])]);
    Then(p, a, failed, RelayCount(0), counted);
    w := counted.(db := Db([], [r.(attempts := 1)], []), relays := [counted.relays[0].(pc := RelayEnded)]);
    assert MarkRows([r], [], map[0 := 1]) == [r.(attempts := 1)];
    Then(p, a, counted, RelayCommit(0, true, false), w);
  }

  lemma RaisedPublish(p: Prefixes, e: Event, r: Row, spelling: nat) returns (w: World)
    requires StagedRow(p, Instance(e), 0, 0) == Success(Some(r))
    ensures Reaches(Careful(p, 0, Some(StoredAndRaised)), Nothing(), w)
    ensures w.db.rows == [r.(attempts := 1)] && w.log == [EntryOf(r, spelling), EntryOf(r, spelling)]
  {
    FirstPublishes(p, StoredAndRaised, e, r, spelling, true);
    assert !r.published && r.attempts == 0;
    assert EntryOf(r.(attempts := 1), spelling) == EntryOf(r, spelling);
    hide Reaches, StagedRow, EntryOf;
    w := FailureCounted(p, StoredAndRaised, r, spelling);
    w := SecondPublishes(p, StoredAndRaised, w, r.(attempts := 1), spelling);
  }

  lemma MarkAbandoned(p: Prefixes, r: Row, spelling: nat) returns (w: World)
    requires Reaches(Careful(p, 0, Some(MarkLost)), Nothing(), FirstPublished(r, spelling, false))
    ensures Reaches(Careful(p, 0, Some(MarkLost)), Nothing(), w)
    ensures w.db.rows == [r] && w.log == [EntryOf(r, spelling)]
    ensures w.units == FirstSelected(r).units && |w.relays| == 1 && w.relays[0].pc.RelayEnded?
  {
    hide Reaches, RowBytes;
    var published := FirstPublished(r, spelling, false);
    w := published.(relays := [published.relays[0].(pc := RelayEnded)]);
    Then(p, MarkLost, published, AbandonRelay(0), w);
  }

  lemma LostMark(p: Prefixes, e: Event, r: Row, spelling: nat) returns (w: World)
    requires StagedRow(p, Instance(e), 0, 0) == Success(Some(r))
    ensures Reaches(Careful(p, 0, Some(MarkLost)), Nothing(), w)
    ensures w.db.rows == [r] && w.log == [EntryOf(r, spelling), EntryOf(r, spelling)]
  {
    FirstPublishes(p, MarkLost, e, r, spelling, false);
    assert !r.published;
    hide Reaches, StagedRow, EntryOf;
    w := MarkAbandoned(p, r, spelling);
    w := SecondPublishes(p, MarkLost, w, r, spelling);
  }

  /** None of the three conditions can be dropped: each lapse alone, with no other, publishes the row of any
      staged event twice. */
  lemma RowsPublishedTwice(p: Prefixes, e: Event, r: Row, spelling: nat, lapse: Lapse) returns (w: World)
    requires StagedRow(p, Instance(e), 0, 0) == Success(Some(r))
    ensures Reaches(Careful(p, 0, Some(lapse)), Nothing(), w)
    ensures |w.db.rows| == 1 && Key(w.db.rows[0]) == r
    ensures w.log == [EntryOf(r, spelling), EntryOf(r, spelling)] && !AtMostOnce(w, 0)
  {
    assert Key(r) == r;
    hide Reaches, StagedRow, RowBytes;
    match lapse {
      case Concurrent => w := ConcurrentRelays(p, e, r, spelling);
      case StoredAndRaised => w := RaisedPublish(p, e, r, spelling);
      case MarkLost => w := LostMark(p, e, r, spelling);
    }
    assert w.log[0].source == Some(0) == w.log[1].source;
  }
}
