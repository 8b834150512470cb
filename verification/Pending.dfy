/** `get_pending_outbox`: the oldest unpublished rows. */
module Pending {
  import opened Outbox

  predicate Within(ids: seq<nat>, n: nat) {
    forall i | 0 <= i < |ids| :: ids[i] < n
  }

  predicate Ordered(rows: seq<Row>, ids: seq<nat>)
    requires Within(ids, |rows|)
  {
    forall i, j | 0 <= i < j < |ids| :: rows[ids[i]].createdAt <= rows[ids[j]].createdAt
  }

  /** `ids` with `r` after every row that is not younger. */
  function Place(rows: seq<Row>, ids: seq<nat>, r: nat): (placed: seq<nat>)
    requires Within(ids, |rows|) && r < |rows|
    ensures Within(placed, |rows|)
  {
    if ids == [] then [r]
    else
      var k := |ids| - 1;
      if rows[ids[k]].createdAt <= rows[r].createdAt then ids + [r]
      else Place(rows, ids[..k], r) + [ids[k]]
  }

  lemma {:induction false} PlaceMembers(rows: seq<Row>, ids: seq<nat>, r: nat, x: nat)
    requires Within(ids, |rows|) && r < |rows|
    ensures x in Place(rows, ids, r) <==> x in ids || x == r
  {
    if ids != [] {
      var k := |ids| - 1;
      PlaceMembers(rows, ids[..k], r, x);
      assert x in ids <==> x in ids[..k] || x == ids[k];
    }
  }

  lemma {:induction false} PlaceOrdered(rows: seq<Row>, ids: seq<nat>, r: nat)
    requires Within(ids, |rows|) && r < |rows| && Ordered(rows, ids)
    ensures Ordered(rows, Place(rows, ids, r))
  {
    if ids != [] {
      var k := |ids| - 1;
      if rows[ids[k]].createdAt > rows[r].createdAt {
        PlaceOrdered(rows, ids[..k], r);
        var front := Place(rows, ids[..k], r);
        forall i | 0 <= i < |front| ensures rows[front[i]].createdAt <= rows[ids[k]].createdAt {
          PlaceMembers(rows, ids[..k], r, front[i]);
        }
      }
    }
  }

  lemma {:induction false} PlaceDistinct(rows: seq<Row>, ids: seq<nat>, r: nat)
    requires Within(ids, |rows|) && r < |rows| && Distinct(ids) && r !in ids
    ensures Distinct(Place(rows, ids, r))
  {
    if ids != [] {
      var k := |ids| - 1;
      if rows[ids[k]].createdAt > rows[r].createdAt {
        PlaceDistinct(rows, ids[..k], r);
        PlaceMembers(rows, ids[..k], r, ids[k]);
      }
    }
  }

  function PendingByAge(rows: seq<Row>, n: nat): (ids: seq<nat>)
    requires n <= |rows|
    ensures Within(ids, |rows|)
  {
    if n == 0 then []
    else if rows[n - 1].published then PendingByAge(rows, n - 1)
    else Place(rows, PendingByAge(rows, n - 1), n - 1)
  }

  lemma {:induction false} PendingMembers(rows: seq<Row>, n: nat, x: nat)
    requires n <= |rows|
    ensures x in PendingByAge(rows, n) <==> x < n && !rows[x].published
  {
    if n > 0 {
      PendingMembers(rows, n - 1, x);
      if !rows[n - 1].published {
        PlaceMembers(rows, PendingByAge(rows, n - 1), n - 1, x);
      }
    }
  }

  /** The pending rows come once each, oldest first. */
  lemma {:induction false} PendingSorted(rows: seq<Row>, n: nat)
    requires n <= |rows|
    ensures Ordered(rows, PendingByAge(rows, n)) && Distinct(PendingByAge(rows, n))
  {
    if n > 0 {
      hide Place;
      PendingSorted(rows, n - 1);
      if !rows[n - 1].published {
        var ids := PendingByAge(rows, n - 1);
        PendingMembers(rows, n - 1, n - 1);
        PlaceOrdered(rows, ids, n - 1);
        PlaceDistinct(rows, ids, n - 1);
      }
    }
  }

  /** The query's answer when rows of one age come in insertion order. */
  function Oldest(rows: seq<Row>, limit: nat): seq<nat> {
    var ids := PendingByAge(rows, |rows|);
    if |ids| <= limit then ids else ids[..limit]
  }

  lemma OldestSelects(rows: seq<Row>, limit: nat)
    ensures IsSelection(rows, Oldest(rows, limit), limit)
  {
    var ids, sel := PendingByAge(rows, |rows|), Oldest(rows, limit);
    PendingSorted(rows, |rows|);
    assert forall i | 0 <= i < |sel| :: sel[i] == ids[i] && sel[i] in sel;
    forall i | 0 <= i < |sel| ensures sel[i] < |rows| && !rows[sel[i]].published {
      PendingMembers(rows, |rows|, ids[i]);
    }
    forall r | 0 <= r < |rows| && !rows[r].published && r !in sel
      ensures |sel| == limit && forall i | 0 <= i < |sel| :: rows[sel[i]].createdAt <= rows[r].createdAt
    {
      PendingMembers(rows, |rows|, r);
      var j :| 0 <= j < |ids| && ids[j] == r;
    }
  }
}
