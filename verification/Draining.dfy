/** How fast relays empty the outbox when nothing fails. */
module Draining {
  import opened Outbox
  import opened OutboxSafety
  import opened Relay
  import opened Wire

  ghost function PendingRows(rows: seq<Row>): set<nat> {
    set r: nat | r < |rows| && !rows[r].published
  }

  ghost function Backlog(rows: seq<Row>): nat {
    |PendingRows(rows)|
  }

  function Min(a: int, b: int): int { if a <= b then a else b }

  function Max(a: int, b: int): int { if a <= b then b else a }

  function Members(xs: seq<nat>): set<nat> {
    set x | x in xs
  }

  lemma {:induction false} DistinctCount(xs: seq<nat>)
    requires Distinct(xs)
    ensures |Members(xs)| == |xs|
  {
    if xs == [] {
      assert Members(xs) == {};
    } else {
      var k := |xs| - 1;
      DistinctCount(xs[..k]);
      assert xs == xs[..k] + [xs[k]];
      assert xs[k] !in Members(xs[..k]);
      assert Members(xs) == Members(xs[..k]) + {xs[k]};
    }
  }

  lemma SubsetCount(a: set<nat>, b: set<nat>)
    requires a <= b
    ensures |b - a| == |b| - |a|
    ensures |a| == |b| ==> a == b
  {
    assert b == (b - a) + a;
  }

  lemma PendingAfter(rows: seq<Row>, sel: seq<nat>)
    ensures PendingRows(MarkRows(rows, sel, map[])) == PendingRows(rows) - Members(sel)
  {
  }

  lemma SelectionFills(rows: seq<Row>, sel: seq<nat>, limit: nat)
    requires IsSelection(rows, sel, limit)
    ensures Members(sel) <= PendingRows(rows) && |Members(sel)| == |sel| <= limit
    ensures Members(sel) == PendingRows(rows) || |sel| == limit
  {
    DistinctCount(sel);
    if Members(sel) != PendingRows(rows) {
      var r :| r in PendingRows(rows) && r !in Members(sel);
      assert r !in sel;
    }
  }

  /** A round selects as many rows as it may, and marking them takes exactly those off the backlog. */
  lemma RoundDrains(rows: seq<Row>, sel: seq<nat>, limit: nat)
    requires IsSelection(rows, sel, limit)
    ensures |sel| == Min(limit, Backlog(rows))
    ensures PendingRows(MarkRows(rows, sel, map[])) == PendingRows(rows) - Members(sel)
    ensures Backlog(MarkRows(rows, sel, map[])) == Max(0, Backlog(rows) - limit)
  {
    hide IsSelection, MarkRows, PendingRows, Members;
    SelectionFills(rows, sel, limit);
    PendingAfter(rows, sel);
    SubsetCount(Members(sel), PendingRows(rows));
  }

  /** A stream entry that came from a row pending in `rows`, and carries it. */
  ghost predicate From(rows: seq<Row>, e: Entry) {
    e.source.Some? && e.source.value in PendingRows(rows) && Carries(e.message, rows[e.source.value])
  }

  /** When the row behind an entry was created. */
  function Age(rows: seq<Row>, e: Entry): nat {
    if e.source.Some? && e.source.value < |rows| then rows[e.source.value].createdAt else 0
  }

  /** What a round publishes: as many rows as it may, each once and oldest first; nothing it leaves
      pending is older than anything it published. */
  lemma RoundPublishesOldest(w: World, v: World, sel: seq<nat>, fates: seq<Fate>) returns (added: seq<Entry>)
    requires IsSelection(w.db.rows, sel, 100) && Relayed(w, v, sel, fates)
    ensures v.log == w.log + added && |added| == Min(100, Backlog(w.db.rows))
    ensures forall i | 0 <= i < |added| :: From(w.db.rows, added[i])
    ensures forall i, j | 0 <= i < j < |added| ::
              added[i].source != added[j].source && Age(w.db.rows, added[i]) <= Age(w.db.rows, added[j])
    ensures forall i, r | 0 <= i < |added| && 0 <= r < |w.db.rows| && r in PendingRows(v.db.rows) ::
              Age(w.db.rows, added[i]) <= w.db.rows[r].createdAt
  {
    hide MarkRows, StoresFor, EntriesFor;
    var rows := w.db.rows;
    added := EntriesFor(rows, sel, fates);
    RoundDrains(rows, sel, 100);
    EntriesAre(rows, sel, fates);
    forall i, r | 0 <= i < |added| && 0 <= r < |rows| && r in PendingRows(v.db.rows)
      ensures Age(rows, added[i]) <= rows[r].createdAt
    {
      assert r in PendingRows(rows) && r !in sel && added[i].source == Some(sel[i]);
    }
  }

  lemma EntriesAre(rows: seq<Row>, sel: seq<nat>, fates: seq<Fate>)
    requires |sel| <= |fates| && forall i | 0 <= i < |sel| :: sel[i] < |rows| && !rows[sel[i]].published
    ensures |EntriesFor(rows, sel, fates)| == |sel|
    ensures forall i | 0 <= i < |sel| ::
              EntriesFor(rows, sel, fates)[i].source == Some(sel[i]) && From(rows, EntriesFor(rows, sel, fates)[i])
  {
  }

  /** One serial durable commit: the database just before it, and what it leaves. */
  datatype Round = Round(before: World, after: World, unit: nat, sel: seq<nat>, fates: seq<Fate>)

  /** Durable commits one after the other, each staging `staged` events and relaying undisturbed. */
  ghost predicate Serial(p: Subjects.Prefixes, rounds: seq<Round>, staged: nat) {
    && (forall i | 0 <= i < |rounds| ::
          && Attainable(p, rounds[i].before)
          && DurableCommit(rounds[i].before, rounds[i].after, rounds[i].unit, rounds[i].sel, rounds[i].fates)
          && |rounds[i].before.units[rounds[i].unit].staged| == staged)
    && (forall i | 0 < i < |rounds| :: rounds[i].before.db.rows == rounds[i - 1].after.db.rows)
  }

  lemma {:induction false} StagingAdds(rows: seq<Row>, staged: seq<Row>)
    requires forall i | 0 <= i < |staged| :: !staged[i].published
    ensures Backlog(rows + staged) == Backlog(rows) + |staged|
  {
    if staged == [] {
      assert rows + staged == rows;
    } else {
      var k := |staged| - 1;
      StagingAdds(rows, staged[..k]);
      var front := rows + staged[..k];
      assert rows + staged == front + [staged[k]];
      assert PendingRows(rows + staged) == PendingRows(front) + {|front|};
    }
  }

  lemma CommitDrains(p: Subjects.Prefixes, r: Round)
    requires Attainable(p, r.before) && DurableCommit(r.before, r.after, r.unit, r.sel, r.fates)
    ensures var n := |r.before.units[r.unit].staged|;
            Backlog(r.after.db.rows) == Max(0, Backlog(r.before.db.rows) + n - 100)
  {
    hide Attainable;
    AttainableSafe(p, r.before);
    var x := r.before.units[r.unit];
    assert UnitOk(r.before, r.unit);
    forall i | 0 <= i < |x.staged| ensures !x.staged[i].published {
      assert Key(x.staged[i]) == x.staged[i];
    }
    StagingAdds(r.before.db.rows, x.staged);
    RoundDrains(r.before.db.rows + x.staged, r.sel, 100);
  }

  /** The backlog after a run of serial durable commits, exactly; it is empty as soon as the commits
      number `backlog / (100 - staged)`, rounded up, and no sooner. With `staged == 0` this is what
      bare relay rounds do, with `staged == 1` what the ordering transactions do. */
  lemma {:induction false} SerialCommitsDrain(p: Subjects.Prefixes, rounds: seq<Round>, staged: nat)
    requires Serial(p, rounds, staged) && rounds != [] && staged <= 100
    ensures var n := Backlog(rounds[0].before.db.rows);
            var left := Backlog(rounds[|rounds| - 1].after.db.rows);
            && left == Max(0, n - (100 - staged) * |rounds|)
            && (staged < 100 ==> (left == 0 <==> |rounds| >= CeilingDiv(n, 100 - staged)))
  {
    hide Attainable, DurableCommit;
    var k := |rounds| - 1;
    var n, rate := Backlog(rounds[0].before.db.rows), 100 - staged;
    CommitDrains(p, rounds[k]);
    if k > 0 {
      SerialCommitsDrain(p, rounds[..k], staged);
      assert rounds[k].before.db.rows == rounds[k - 1].after.db.rows;
      assert rate * |rounds| == rate * k + rate;
    }
    if staged < 100 {
      CeilingDivIs(n, rate, |rounds|);
    }
  }

  function CeilingDiv(n: nat, d: nat): nat
    requires d > 0
  {
    (n + d - 1) / d
  }

  lemma CeilingDivIs(n: nat, d: nat, k: nat)
    requires d > 0
    ensures k >= CeilingDiv(n, d) <==> d * k >= n
  {
    var c := CeilingDiv(n, d);
    assert d * c <= n + d - 1 < d * c + d;
    if k >= c {
      assert d * k >= d * c;
    } else {
      assert d * k <= d * (c - 1) == d * c - d;
    }
  }
}
