/** The production job state machine and the jobs it governs. */
module JobStates {
  /** A status is any string; all but seven are unknown to the machine. */
  datatype Status =
    | Pending
    | ReceivedArtwork
    | Prepress
    | Batched
    | Hold
    | Canceled
    | Complete
    | Other(text: string)

  function Transitions(from: Status): seq<Status> {
    match from
    case Pending => [ReceivedArtwork, Hold, Canceled]
    case ReceivedArtwork => [Prepress, Hold, Canceled]
    case Prepress => [Batched, Hold, Canceled]
    case Batched => [Complete, Hold, Canceled]
    case Hold => [Pending, Canceled]
    case Canceled => []
    case Complete => []
    case Other(_) => []
  }

  predicate CanTransition(from: Status, to: Status) {
    to in Transitions(from)
  }

  /** The way through production, told apart from the table: on hold a job starts anew. */
  predicate IsNextStage(from: Status, to: Status) {
    (from, to) in {(Pending, ReceivedArtwork), (ReceivedArtwork, Prepress), (Prepress, Batched), (Batched, Complete),
                   (Hold, Pending)}
  }

  /** The rules the table follows: what can be canceled and held, and where a job may go otherwise. */
  predicate Allowed(from: Status, to: Status) {
    if to == Canceled then from in {Pending, ReceivedArtwork, Prepress, Batched, Hold}
    else if to == Hold then from in {Pending, ReceivedArtwork, Prepress, Batched}
    else IsNextStage(from, to)
  }

  predicate FileEditable(s: Status) {
    s in {Pending, Hold}
  }

  class Job {
    const id: nat
    const uuid: string
    var status: Status
    var fileEditable: bool

    constructor (id: nat, uuid: string, status: Status, fileEditable: bool)
      ensures this.id == id && this.uuid == uuid && this.status == status && this.fileEditable == fileEditable
    {
      this.id, this.uuid, this.status, this.fileEditable := id, uuid, status, fileEditable;
    }

    /** `transition_to`: a job can be canceled exactly in the five statuses that are not terminal, held exactly
        in the four of production, and otherwise only goes on to the next stage, or from HOLD back to PENDING.
        A forbidden transition raises and changes nothing; an allowed one always leaves a known status, with
        the file editable exactly in PENDING and HOLD. */
    method TransitionTo(next: Status) returns (ok: bool)
      modifies this
      ensures ok <==> CanTransition(old(status), next)
      ensures ok <==> Allowed(old(status), next)
      ensures ok ==> status == next && !status.Other? && (fileEditable <==> status.Pending? || status.Hold?)
      ensures !ok ==> status == old(status) && fileEditable == old(fileEditable)
    {
      ok := CanTransition(status, next);
      if ok {
        status := next;
        fileEditable := FileEditable(next);
      }
    }
  }

  /** The statuses a job goes through, oldest first. */
  predicate Path(p: seq<Status>) {
    p != [] && p[0] == Pending && forall i | 0 < i < |p| :: CanTransition(p[i - 1], p[i])
  }

  function Last(p: seq<Status>): Status
    requires p != []
  {
    p[|p| - 1]
  }

  function Visits(p: seq<Status>, s: Status): nat {
    if p == [] then 0 else Visits(p[..|p| - 1], s) + if p[|p| - 1] == s then 1 else 0
  }

  /** How far along the way from PENDING to COMPLETE a status is; HOLD is one step before PENDING. */
  function Progress(s: Status): int {
    match s
    case Hold => -1
    case Pending => 0
    case ReceivedArtwork => 1
    case Prepress => 2
    case Batched => 3
    case _ => 4
  }

  lemma {:induction false} ProgressPays(p: seq<Status>)
    requires Path(p)
    ensures |p| - 1 <= 5 * Visits(p, Hold) + Progress(Last(p))
  {
    if |p| > 1 {
      ProgressPays(p[..|p| - 1]);
    }
  }

  /** A job that is put on hold `h` times makes at most `5h + 4` transitions. */
  lemma RunsBoundedByHolds(p: seq<Status>)
    requires Path(p)
    ensures |p| - 1 <= 5 * Visits(p, Hold) + 4
  {
    ProgressPays(p);
  }

  function Straight(): seq<Status> {
    [Pending, ReceivedArtwork, Prepress, Batched]
  }

  /** A longest run with `h` holds. */
  function Longest(h: nat): seq<Status> {
    if h == 0 then Straight() + [Complete] else Straight() + [Hold] + Longest(h - 1)
  }

  lemma {:induction false} VisitsConcat(p: seq<Status>, q: seq<Status>, s: Status)
    ensures Visits(p + q, s) == Visits(p, s) + Visits(q, s)
  {
    if q == [] {
      assert p + q == p;
    } else {
      VisitsConcat(p, q[..|q| - 1], s);
      assert (p + q)[..|p + q| - 1] == p + q[..|q| - 1];
    }
  }

  lemma {:induction false} NeverVisited(p: seq<Status>, s: Status)
    requires s !in p
    ensures Visits(p, s) == 0
  {
    if p != [] {
      NeverVisited(p[..|p| - 1], s);
    }
  }

  lemma StraightThen(s: Status)
    requires s == Complete || s == Hold
    ensures Path(Straight() + [s]) && Visits(Straight() + [s], Hold) == if s == Hold then 1 else 0
  {
    NeverVisited(Straight(), Hold);
    assert (Straight() + [s])[..4] == Straight();
  }

  lemma HoldRestarts(p: seq<Status>, q: seq<Status>)
    requires Path(p) && Path(q) && Last(p) == Hold
    ensures Path(p + q)
  {
    var all := p + q;
    assert CanTransition(Hold, Pending);
    hide CanTransition;
    forall i | 0 < i < |all| ensures CanTransition(all[i - 1], all[i]) {
      if i > |p| {
        assert CanTransition(q[i - |p| - 1], q[i - |p|]);
      }
    }
  }

  /** The bound is reached for every number of holds. */
  lemma {:induction false} BoundIsReached(h: nat)
    ensures Path(Longest(h)) && Visits(Longest(h), Hold) == h && |Longest(h)| - 1 == 5 * h + 4
  {
    hide CanTransition, Path, Visits;
    if h == 0 {
      StraightThen(Complete);
    } else {
      BoundIsReached(h - 1);
      StraightThen(Hold);
      VisitsConcat(Straight() + [Hold], Longest(h - 1), Hold);
      HoldRestarts(Straight() + [Hold], Longest(h - 1));
    }
  }

  /** Nothing follows CANCELED or COMPLETE, and no unknown status is ever reached. */
  lemma TerminalStatusesEnd(p: seq<Status>, i: nat)
    requires Path(p) && i < |p|
    ensures p[i] == Canceled || p[i] == Complete ==> i == |p| - 1
    ensures !p[i].Other?
  {
    if i + 1 < |p| {
      assert CanTransition(p[i], p[i + 1]);
    }
    if i > 0 {
      assert CanTransition(p[i - 1], p[i]);
    }
  }

  lemma OnlyWayTo(p: seq<Status>, i: nat)
    requires Path(p) && i < |p|
    ensures p[i] == Complete ==> i > 0 && p[i - 1] == Batched
    ensures p[i] == Batched ==> i > 0 && p[i - 1] == Prepress
    ensures p[i] == Prepress ==> i > 0 && p[i - 1] == ReceivedArtwork
    ensures p[i] == ReceivedArtwork ==> i > 0 && p[i - 1] == Pending
  {
    assert i > 0 ==> CanTransition(p[i - 1], p[i]);
  }

  /** A completed job went through production without interruption at the end. */
  lemma CompletionEndsUnbroken(p: seq<Status>)
    requires Path(p) && Last(p) == Complete
    ensures |p| >= 5 && p[|p| - 5..] == [Pending, ReceivedArtwork, Prepress, Batched, Complete]
  {
    hide CanTransition;
    var n := |p|;
    OnlyWayTo(p, n - 1);
    OnlyWayTo(p, n - 2);
    OnlyWayTo(p, n - 3);
    OnlyWayTo(p, n - 4);
  }
}
