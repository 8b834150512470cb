/** The outbox as a log of what happened to orders and jobs. */
module OrderingLog {
  import opened JobStates
  import opened Ordering
  import opened Runs
  import opened Wire

  /** The status changes logged for a job, oldest first. */
  function Changes(outbox: seq<OrderingEvent>, job: nat): seq<(Status, Status)> {
    if outbox == [] then []
    else
      var e := outbox[|outbox| - 1];
      Changes(outbox[..|outbox| - 1], job) + if e.JobStatusChanged? && e.job == job then [(e.from, e.to)] else []
  }

  function Creations(outbox: seq<OrderingEvent>, order: nat): seq<OrderingEvent> {
    if outbox == [] then []
    else
      var e := outbox[|outbox| - 1];
      Creations(outbox[..|outbox| - 1], order) + if e.OrderCreated? && e.order == order then [e] else []
  }

  function JobsOf(jobs: seq<JobRow>, order: nat): seq<string> {
    if jobs == [] then []
    else
      var j := jobs[|jobs| - 1];
      JobsOf(jobs[..|jobs| - 1], order) + if j.order == order then [j.uuid] else []
  }

  /** The changes are allowed steps, each from where the one before ended, from PENDING to `s`. */
  predicate LeadsTo(changes: seq<(Status, Status)>, s: Status) {
    if changes == [] then s == Pending
    else
      var c := changes[|changes| - 1];
      c.1 == s && CanTransition(c.0, c.1) && LeadsTo(changes[..|changes| - 1], c.0)
  }

  /** The statuses a job went through according to its changes. */
  function Statuses(changes: seq<(Status, Status)>): seq<Status> {
    [Pending] + seq(|changes|, i requires 0 <= i < |changes| => changes[i].1)
  }

  lemma {:induction false} LeadsAlongPath(changes: seq<(Status, Status)>, s: Status)
    requires LeadsTo(changes, s)
    ensures Path(Statuses(changes)) && Last(Statuses(changes)) == s
    ensures forall i | 0 <= i < |changes| :: changes[i] == (Statuses(changes)[i], Statuses(changes)[i + 1])
  {
    hide CanTransition;
    if changes != [] {
      var k := |changes| - 1;
      LeadsAlongPath(changes[..k], changes[k].0);
      assert Statuses(changes) == Statuses(changes[..k]) + [s];
      assert Statuses(changes)[k] == Last(Statuses(changes[..k]));
    }
  }

  predicate JobLogged(db: Db, j: nat)
    requires j < |db.jobs|
  {
    && LeadsTo(Changes(db.outbox, j), db.jobs[j].status)
    && (db.jobs[j].editable <==> FileEditable(db.jobs[j].status))
  }

  /** An order has exactly one creation event, which lists exactly its jobs in order. */
  predicate OrderLogged(db: Db, o: nat)
    requires o < |db.orders|
  {
    Creations(db.outbox, o) ==
    [OrderCreated(o, db.orders[o].number, db.orders[o].user, JobsOf(db.jobs, o))]
  }

  predicate InRange(db: Db) {
    && (forall j | 0 <= j < |db.jobs| :: db.jobs[j].order < |db.orders|)
    && (forall i | 0 <= i < |db.outbox| ::
          match db.outbox[i]
          case OrderCreated(o, _, _, _) => o < |db.orders|
          case JobStatusChanged(j, _, _, _, _, _) => j < |db.jobs|)
  }

  predicate OrdersLogged(db: Db) {
    InRange(db) && forall o | 0 <= o < |db.orders| :: OrderLogged(db, o)
  }

  predicate Consistent(db: Db) {
    OrdersLogged(db) && forall j | 0 <= j < |db.jobs| :: JobLogged(db, j)
  }

  lemma Snoc(outbox: seq<OrderingEvent>, e: OrderingEvent, n: nat)
    ensures Changes(outbox + [e], n) ==
            if e.JobStatusChanged? && e.job == n then Changes(outbox, n) + [(e.from, e.to)] else Changes(outbox, n)
    ensures Creations(outbox + [e], n) ==
            if e.OrderCreated? && e.order == n then Creations(outbox, n) + [e] else Creations(outbox, n)
  {
    assert (outbox + [e])[..|outbox|] == outbox;
  }

  lemma {:induction false} NothingLogged(outbox: seq<OrderingEvent>, n: nat)
    ensures (forall i | 0 <= i < |outbox| && outbox[i].JobStatusChanged? :: outbox[i].job < n) ==>
        Changes(outbox, n) == []
    ensures (forall i | 0 <= i < |outbox| && outbox[i].OrderCreated? :: outbox[i].order < n) ==>
        Creations(outbox, n) == []
  {
    if outbox != [] {
      NothingLogged(outbox[..|outbox| - 1], n);
    }
  }

  /** Inserted jobs are new rows at the end: pending, editable, and the order's only jobs. */
  lemma {:induction false} InsertedJobs(jobs: seq<JobRow>, order: nat, uuids: seq<string>, o: nat)
    requires InsertJobs(jobs, order, uuids).Some?
    ensures var all := InsertJobs(jobs, order, uuids).value;
            && |all| == |jobs| + |uuids| && all[..|jobs|] == jobs
            && (forall j | |jobs| <= j < |all| :: all[j] == JobRow(uuids[j - |jobs|], order, Pending, true))
            && JobsOf(all, o) == if o == order then JobsOf(jobs, o) + uuids else JobsOf(jobs, o)
  {
    if uuids != [] {
      var k := |uuids| - 1;
      InsertedJobs(jobs, order, uuids[..k], o);
      var front := InsertJobs(jobs, order, uuids[..k]).value;
      var all := InsertJobs(jobs, order, uuids).value;
      assert all[..|all| - 1] == front;
      assert uuids[..k] + [uuids[k]] == uuids;
    }
  }

  lemma {:induction false} NoJobsYet(jobs: seq<JobRow>, o: nat)
    requires forall j | 0 <= j < |jobs| :: jobs[j].order < o
    ensures JobsOf(jobs, o) == []
  {
    if jobs != [] {
      NoJobsYet(jobs[..|jobs| - 1], o);
    }
  }

  lemma {:induction false} SameJobs(jobs: seq<JobRow>, other: seq<JobRow>, o: nat)
    requires |jobs| == |other|
    requires forall j | 0 <= j < |jobs| :: jobs[j].order == other[j].order && jobs[j].uuid == other[j].uuid
    ensures JobsOf(jobs, o) == JobsOf(other, o)
  {
    if jobs != [] {
      SameJobs(jobs[..|jobs| - 1], other[..|other| - 1], o);
    }
  }

  lemma CreateEffect(db: Db, r: Request)
    requires r.CreateOrder? && Execute(db, r).Some?
    ensures InsertJobs(db.jobs, |db.orders|, r.uuids).Some?
    ensures Execute(db, r).value ==
            Db(db.orders + [OrderRow(r.number, r.user)], InsertJobs(db.jobs, |db.orders|, r.uuids).value,
               db.outbox + [OrderCreated(|db.orders|, r.number, r.user, r.uuids)])
  {
  }

  /** A created job is logged, and every other job keeps its row and its changes. */
  lemma CreateKeepsJobs(db: Db, r: Request, j: nat)
    requires InRange(db) && r.CreateOrder? && Execute(db, r).Some? && j < |Execute(db, r).value.jobs|
    ensures if j < |db.jobs| then JobUnchanged(db, Execute(db, r).value, j) else JobLogged(Execute(db, r).value, j)
  {
    hide CanTransition, Execute, InsertJobs, Changes, Creations, JobsOf;
    var next := Execute(db, r).value;
    CreateEffect(db, r);
    InsertedJobs(db.jobs, |db.orders|, r.uuids, 0);
    Snoc(db.outbox, OrderCreated(|db.orders|, r.number, r.user, r.uuids), j);
    if j >= |db.jobs| {
      NothingLogged(db.outbox, j);
    } else {
      assert next.jobs[j] == next.jobs[..|db.jobs|][j];
    }
  }

  lemma CreateKeepsOrders(db: Db, r: Request, o: nat)
    requires OrdersLogged(db) && r.CreateOrder? && Execute(db, r).Some? && o < |Execute(db, r).value.orders|
    ensures OrderLogged(Execute(db, r).value, o)
  {
    hide CanTransition, Execute, InsertJobs, Changes, Creations, JobsOf, JobLogged, LeadsTo;
    var next := Execute(db, r).value;
    CreateEffect(db, r);
    InsertedJobs(db.jobs, |db.orders|, r.uuids, o);
    Snoc(db.outbox, OrderCreated(|db.orders|, r.number, r.user, r.uuids), o);
    if o == |db.orders| {
      NothingLogged(db.outbox, o);
      NoJobsYet(db.jobs, o);
      assert [] + r.uuids == r.uuids;
    } else {
      assert OrderLogged(db, o);
      assert next.orders[o] == db.orders[o];
    }
  }

  /** What a transition read before it commits. */
  datatype Reading = Reading(
    job: nat, status: Status, editable: bool, to: Status, actor: Option<int>, reason: Option<string>)

  function ReadingOf(db: Db, job: nat, to: Status, actor: Option<int>, reason: Option<string>): Reading
    requires job < |db.jobs|
  {
    Reading(job, db.jobs[job].status, db.jobs[job].editable, to, actor, reason)
  }

  /** The commit writes the new status, and the editable flag only if it differs from the one read. */
  function CommitReading(db: Db, t: Reading): Db
    requires t.job < |db.jobs|
  {
    var row := db.jobs[t.job];
    db.(jobs := db.jobs[t.job := row.(status := t.to,
          editable := if FileEditable(t.to) != t.editable then FileEditable(t.to) else row.editable)],
        outbox := db.outbox + [JobStatusChanged(t.job, row.uuid, t.status, t.to, t.actor,
            ReasonFor(t.reason, t.status, t.to))])
  }

  /** A transition that nothing overlaps reads and commits in one step. */
  lemma SerialTransition(db: Db, r: Request)
    requires r.TransitionJob? && Execute(db, r).Some?
    ensures r.job < |db.jobs| && CanTransition(db.jobs[r.job].status, r.to)
    ensures Execute(db, r).value == CommitReading(db, ReadingOf(db, r.job, r.to, r.actor, r.reason))
  {
    hide CanTransition;
  }

  predicate JobUnchanged(db: Db, next: Db, j: nat) {
    && j < |db.jobs| && j < |next.jobs| && next.jobs[j] == db.jobs[j]
    && Changes(next.outbox, j) == Changes(db.outbox, j)
  }

  /** A commit appends its change to its job's and leaves every other job's row and changes alone. */
  lemma CommitChanges(db: Db, t: Reading, j: nat)
    requires t.job < |db.jobs| && j < |db.jobs|
    ensures j != t.job ==> JobUnchanged(db, CommitReading(db, t), j)
    ensures Changes(CommitReading(db, t).outbox, t.job) == Changes(db.outbox, t.job) + [(t.status, t.to)]
  {
    hide Changes;
    var next := CommitReading(db, t);
    Snoc(db.outbox, next.outbox[|db.outbox|], j);
    Snoc(db.outbox, next.outbox[|db.outbox|], t.job);
  }

  /** Appending a change leads to `s` exactly when it is an allowed step to `s` from where the others lead. */
  lemma LeadsSnoc(changes: seq<(Status, Status)>, from: Status, to: Status, s: Status)
    ensures LeadsTo(changes + [(from, to)], s) <==> s == to && CanTransition(from, to) && LeadsTo(changes, from)
  {
    hide CanTransition;
    assert (changes + [(from, to)])[..|changes|] == changes;
  }

  lemma LeadsOnce(changes: seq<(Status, Status)>, s: Status, t: Status)
    requires LeadsTo(changes, s)
    ensures LeadsTo(changes, t) <==> s == t
  {
  }

  lemma TransitionKeepsJobs(db: Db, r: Request, j: nat)
    requires r.TransitionJob? && Execute(db, r).Some? && j < |db.jobs| && JobLogged(db, j)
    ensures j < |Execute(db, r).value.jobs| && JobLogged(Execute(db, r).value, j)
  {
    hide CanTransition, Changes, LeadsTo, Execute;
    SerialTransition(db, r);
    var t := ReadingOf(db, r.job, r.to, r.actor, r.reason);
    CommitChanges(db, t, j);
    LeadsSnoc(Changes(db.outbox, r.job), t.status, t.to, t.to);
  }

  lemma CommitKeepsOrders(db: Db, t: Reading)
    requires OrdersLogged(db) && t.job < |db.jobs|
    ensures OrdersLogged(CommitReading(db, t))
  {
    hide Creations, JobsOf;
    var next := CommitReading(db, t);
    forall o | 0 <= o < |db.orders| ensures OrderLogged(next, o) {
      Snoc(db.outbox, next.outbox[|db.outbox|], o);
      SameJobs(next.jobs, db.jobs, o);
      assert OrderLogged(db, o);
    }
  }

  lemma ExecuteKeepsRange(db: Db, r: Request)
    requires InRange(db) && Execute(db, r).Some?
    ensures InRange(Execute(db, r).value)
  {
    if r.CreateOrder? {
      InsertedJobs(db.jobs, |db.orders|, r.uuids, 0);
      var next := Execute(db, r).value;
      forall j | 0 <= j < |next.jobs| ensures next.jobs[j].order < |next.orders| {
        if j < |db.jobs| {
          assert next.jobs[j] == next.jobs[..|db.jobs|][j];
        }
      }
    }
  }

  lemma ExecuteKeepsOrders(db: Db, r: Request)
    requires OrdersLogged(db) && Execute(db, r).Some?
    ensures OrdersLogged(Execute(db, r).value)
  {
    hide Execute, OrderLogged, InRange;
    var next := Execute(db, r).value;
    if r.CreateOrder? {
      ExecuteKeepsRange(db, r);
      forall o | 0 <= o < |next.orders| ensures OrderLogged(next, o) {
        CreateKeepsOrders(db, r, o);
      }
    } else {
      SerialTransition(db, r);
      CommitKeepsOrders(db, ReadingOf(db, r.job, r.to, r.actor, r.reason));
    }
  }

  lemma ExecuteKeepsConsistent(db: Db, r: Request, applied: bool)
    requires Consistent(db)
    ensures Consistent(After(db, r, applied))
  {
    hide Execute, LeadsTo, Changes, FileEditable, OrdersLogged;
    if Execute(db, r).Some? && applied {
      var next := Execute(db, r).value;
      ExecuteKeepsOrders(db, r);
      forall j | 0 <= j < |next.jobs| ensures JobLogged(next, j) {
        if r.CreateOrder? {
          ConsistentRange(db);
          CreateKeepsJobs(db, r, j);
          assert j < |db.jobs| ==> JobLogged(db, j);
        } else {
          SameCounts(db, r);
          TransitionKeepsJobs(db, r, j);
        }
      }
    }
  }

  lemma ConsistentRange(db: Db)
    requires OrdersLogged(db)
    ensures InRange(db)
  {
  }

  lemma SameCounts(db: Db, r: Request)
    requires Execute(db, r).Some?
    ensures r.TransitionJob? ==>
              |Execute(db, r).value.jobs| == |db.jobs|
  {
  }

  /** Serial transactions; the boolean says whether the commit takes effect. */
  ghost function Serial(): Machine<Db, (Request, bool)> {
    Machine((db, t) => true, (db: Db, t: (Request, bool)) => After(db, t.0, t.1))
  }

  ghost predicate Attained(db: Db) {
    Reaches(Serial(), Db([], [], []), db)
  }

  /** The outbox is a faithful log, over every serial run of create and transition transactions of which
      any may be rolled back: each job's logged changes form a chain of allowed steps from PENDING, each
      starting where the one before ended, that ends at the committed status; its file is editable
      exactly in PENDING and HOLD; and each order was logged once, with exactly its jobs. */
  lemma OutboxLogsJobs(db: Db)
    requires Attained(db)
    ensures forall j | 0 <= j < |db.jobs| ::
              var changes, p := Changes(db.outbox, j), Statuses(Changes(db.outbox, j));
              && Path(p) && Last(p) == db.jobs[j].status
              && (forall i | 0 <= i < |changes| :: changes[i] == (p[i], p[i + 1]))
              && |changes| <= 5 * Visits(p, Hold) + 4
              && (db.jobs[j].editable <==> db.jobs[j].status.Pending? || db.jobs[j].status.Hold?)
    ensures forall o | 0 <= o < |db.orders| :: OrderLogged(db, o)
  {
    hide CanTransition, Path, LeadsTo, Changes, Visits, OrderLogged, After;
    forall d, t: (Request, bool) | Consistent(d) ensures Consistent(After(d, t.0, t.1)) {
      ExecuteKeepsConsistent(d, t.0, t.1);
    }
    var ts :| Valid(Serial(), Db([], [], []), ts) && Final(Serial(), Db([], [], []), ts) == db;
    InvariantHolds(Serial(), d => Consistent(d), Db([], [], []), ts);
    forall j | 0 <= j < |db.jobs|
      ensures var changes, p := Changes(db.outbox, j), Statuses(Changes(db.outbox, j));
              && Path(p) && Last(p) == db.jobs[j].status
              && (forall i | 0 <= i < |changes| :: changes[i] == (p[i], p[i + 1]))
              && |changes| <= 5 * Visits(p, Hold) + 4
              && (db.jobs[j].editable <==> db.jobs[j].status.Pending? || db.jobs[j].status.Hold?)
    {
      assert JobLogged(db, j);
      LeadsAlongPath(Changes(db.outbox, j), db.jobs[j].status);
      RunsBoundedByHolds(Statuses(Changes(db.outbox, j)));
    }
  }

  /** Overlapping transactions: `readings` are the transitions that have read their job and not committed;
      one that never commits is rolled back. `stale` collects the jobs some commit found in another status
      than it had read; `misflagged` those whose last commit kept a flag that was not the one it had read. */
  datatype Overlap = Overlap(db: Db, readings: seq<Reading>, stale: set<nat>, misflagged: set<nat>)

  datatype OverlapStep =
    | Transact(request: Request)
    | ReadJob(job: nat, to: Status, actor: Option<int>, reason: Option<string>)
    | CommitRead(index: nat)

  predicate CanOverlap(x: Overlap, l: OverlapStep) {
    match l
    case Transact(r) => r.CreateOrder?
    case ReadJob(j, to, _, _) => j < |x.db.jobs| && CanTransition(x.db.jobs[j].status, to)
    case CommitRead(i) => i < |x.readings| && x.readings[i].job < |x.db.jobs|
  }

  /** The commit finds another status than its transaction read. */
  predicate Stale(db: Db, t: Reading)
    requires t.job < |db.jobs|
  {
    db.jobs[t.job].status != t.status
  }

  /** The commit does not write the flag, and it is not the one its transaction read. */
  predicate Misflags(db: Db, t: Reading)
    requires t.job < |db.jobs|
  {
    FileEditable(t.to) == t.editable && db.jobs[t.job].editable != t.editable
  }

  function DoOverlap(x: Overlap, l: OverlapStep): Overlap {
    if !CanOverlap(x, l) then x else
    match l
    case Transact(r) => x.(db := After(x.db, r, true))
    case ReadJob(j, to, actor, reason) => x.(readings := x.readings + [ReadingOf(x.db, j, to, actor, reason)])
    case CommitRead(i) =>
      var t := x.readings[i];
      Overlap(CommitReading(x.db, t), x.readings[..i] + x.readings[i + 1..],
              x.stale + (if Stale(x.db, t) then {t.job} else {}),
              if Misflags(x.db, t) then x.misflagged + {t.job} else x.misflagged - {t.job})
  }

  ghost function Overlapping(): Machine<Overlap, OverlapStep> {
    Machine((x, l) => CanOverlap(x, l), (x, l) => DoOverlap(x, l))
  }

  ghost predicate AttainedOverlap(x: Overlap) {
    Reaches(Overlapping(), Overlap(Db([], [], []), [], {}, {}), x)
  }

  /** A job's changes lead to its status, or a commit was stale and they lead nowhere any more. */
  ghost predicate JobTraced(x: Overlap, j: nat)
    requires j < |x.db.jobs|
  {
    var changes := Changes(x.db.outbox, j);
    && (j !in x.stale ==> LeadsTo(changes, x.db.jobs[j].status) && j !in x.misflagged)
    && (j in x.stale ==> forall s :: !LeadsTo(changes, s))
    && ((x.db.jobs[j].editable <==> FileEditable(x.db.jobs[j].status)) <==> j !in x.misflagged)
  }

  /** A transition of a job without a stale commit read a flag that fits the status it read. */
  predicate ReadingOk(x: Overlap, t: Reading) {
    && t.job < |x.db.jobs| && CanTransition(t.status, t.to)
    && (t.job !in x.stale ==> (t.editable <==> FileEditable(t.status)))
  }

  ghost predicate Traced(x: Overlap) {
    && OrdersLogged(x.db)
    && (forall j | j in x.stale || j in x.misflagged :: j < |x.db.jobs|)
    && (forall j | 0 <= j < |x.db.jobs| :: JobTraced(x, j))
    && (forall t | t in x.readings :: ReadingOk(x, t))
  }

  lemma CommitTracesJob(x: Overlap, i: nat, j: nat)
    requires Traced(x) && CanOverlap(x, CommitRead(i)) && j < |x.db.jobs|
    ensures JobTraced(DoOverlap(x, CommitRead(i)), j)
  {
    hide LeadsTo, Changes, CanTransition, OrdersLogged, ReadingOk;
    var t := x.readings[i];
    var changes, next := Changes(x.db.outbox, t.job), DoOverlap(x, CommitRead(i));
    CommitChanges(x.db, t, j);
    assert JobTraced(x, j);
    if j == t.job {
      ReadingsOk(x, i);
      forall s ensures LeadsTo(changes + [(t.status, t.to)], s) <==> s == t.to && LeadsTo(changes, t.status) {
        LeadsSnoc(changes, t.status, t.to, s);
      }
      if j !in x.stale {
        LeadsOnce(changes, x.db.jobs[j].status, t.status);
      }
    }
  }

  lemma ReadingsOk(x: Overlap, i: nat)
    requires Traced(x) && i < |x.readings|
    ensures var t := x.readings[i];
            && t.job < |x.db.jobs| && CanTransition(t.status, t.to)
            && (t.job !in x.stale ==> (t.editable <==> FileEditable(t.status)))
  {
    hide JobTraced, OrdersLogged;
    assert x.readings[i] in x.readings;
  }

  lemma CommitKeepsTraced(x: Overlap, i: nat)
    requires Traced(x) && CanOverlap(x, CommitRead(i))
    ensures Traced(DoOverlap(x, CommitRead(i)))
  {
    hide JobTraced, OrdersLogged, CanTransition;
    var next := DoOverlap(x, CommitRead(i));
    CommitKeepsOrders(x.db, x.readings[i]);
    forall j | 0 <= j < |next.db.jobs| ensures JobTraced(next, j) {
      CommitTracesJob(x, i, j);
    }
    forall t | t in next.readings ensures ReadingOk(next, t) {
      assert t in x.readings && ReadingOk(x, t);
    }
  }

  lemma CreateTracesJob(x: Overlap, r: Request, j: nat)
    requires Traced(x) && r.CreateOrder? && Execute(x.db, r).Some? && j < |Execute(x.db, r).value.jobs|
    ensures JobTraced(x.(db := Execute(x.db, r).value), j)
  {
    hide OrdersLogged, LeadsTo, Changes, CanTransition, FileEditable, Execute;
    ConsistentRange(x.db);
    CreateKeepsJobs(x.db, r, j);
    assert j < |x.db.jobs| ==> JobTraced(x, j);
  }

  lemma CreateKeepsTraced(x: Overlap, r: Request)
    requires Traced(x) && r.CreateOrder?
    ensures Traced(DoOverlap(x, Transact(r)))
  {
    hide OrdersLogged, JobTraced, CanTransition, FileEditable, Execute;
    var next := DoOverlap(x, Transact(r));
    if Execute(x.db, r).Some? {
      ExecuteKeepsOrders(x.db, r);
      CreateEffect(x.db, r);
      InsertedJobs(x.db.jobs, |x.db.orders|, r.uuids, 0);
      forall j | 0 <= j < |next.db.jobs| ensures JobTraced(next, j) {
        CreateTracesJob(x, r, j);
      }
    }
  }

  lemma ReadKeepsTraced(x: Overlap, l: OverlapStep)
    requires Traced(x) && l.ReadJob? && CanOverlap(x, l)
    ensures Traced(DoOverlap(x, l))
  {
    hide OrdersLogged, LeadsTo, Changes, CanTransition, FileEditable;
    assert JobTraced(x, l.job);
    var next := DoOverlap(x, l);
    forall j | 0 <= j < |next.db.jobs| ensures JobTraced(next, j) {
      assert JobTraced(x, j);
    }
  }

  /** Over every run of overlapping transitions and creations: a job's logged changes still form a chain of
      allowed steps from PENDING to its committed status exactly when no commit found the job in another
      status than its transaction had read; its file is editable exactly in PENDING and HOLD unless its last
      commit kept a flag it had not read, which takes such a commit; and orders are logged in any case. */
  lemma OverlapsLogExactly(x: Overlap)
    requires AttainedOverlap(x)
    ensures forall j | 0 <= j < |x.db.jobs| ::
              && (LeadsTo(Changes(x.db.outbox, j), x.db.jobs[j].status) <==> j !in x.stale)
              && ((x.db.jobs[j].editable <==> x.db.jobs[j].status.Pending? || x.db.jobs[j].status.Hold?) <==>
                  j !in x.misflagged)
    ensures x.misflagged <= x.stale
    ensures forall o | 0 <= o < |x.db.orders| :: OrderLogged(x.db, o)
  {
    hide CanTransition, LeadsTo, Changes, OrderLogged, DoOverlap, CanOverlap, JobTraced, ReadingOk, InRange;
    var start := Overlap(Db([], [], []), [], {}, {});
    forall y, l: OverlapStep | Traced(y) && CanOverlap(y, l) ensures Traced(DoOverlap(y, l)) {
      match l
      case Transact(r) => CreateTransacts(y, r); CreateKeepsTraced(y, r);
      case ReadJob(_, _, _, _) => ReadKeepsTraced(y, l);
      case CommitRead(i) => CommitKeepsTraced(y, i);
    }
    var ls :| Valid(Overlapping(), start, ls) && Final(Overlapping(), start, ls) == x;
    NothingTraced();
    InvariantHolds(Overlapping(), y => Traced(y), start, ls);
    forall j | 0 <= j < |x.db.jobs|
      ensures LeadsTo(Changes(x.db.outbox, j), x.db.jobs[j].status) <==> j !in x.stale
      ensures j in x.misflagged ==> j in x.stale
      ensures (x.db.jobs[j].editable <==> FileEditable(x.db.jobs[j].status)) <==> j !in x.misflagged
    {
      TracedJob(x, j);
    }
  }

  lemma NothingTraced()
    ensures Traced(Overlap(Db([], [], []), [], {}, {}))
  {
  }

  lemma CreateTransacts(x: Overlap, r: Request)
    requires CanOverlap(x, Transact(r))
    ensures r.CreateOrder?
  {
  }

  lemma TracedJob(x: Overlap, j: nat)
    requires j < |x.db.jobs| && JobTraced(x, j)
    ensures LeadsTo(Changes(x.db.outbox, j), x.db.jobs[j].status) <==> j !in x.stale
    ensures j in x.misflagged ==> j in x.stale
    ensures (x.db.jobs[j].editable <==> FileEditable(x.db.jobs[j].status)) <==> j !in x.misflagged
  {
    hide LeadsTo, Changes, FileEditable;
  }

  lemma Overlaps(x: Overlap, l: OverlapStep) returns (y: Overlap)
    requires AttainedOverlap(x) && CanOverlap(x, l)
    ensures y == DoOverlap(x, l) && AttainedOverlap(y)
  {
    hide CanOverlap, DoOverlap;
    ReachesStep(Overlapping(), Overlap(Db([], [], []), [], {}, {}), x, l);
    y := DoOverlap(x, l);
  }

  lemma OneOrder() returns (x: Overlap)
    ensures AttainedOverlap(x) && x.readings == [] && x.stale == {} && x.misflagged == {}
    ensures x.db == Db([OrderRow("A", 1)], [JobRow("a", 0, Pending, true)], [OrderCreated(0, "A", 1, ["a"])])
    ensures Changes(x.db.outbox, 0) == []
  {
    var start := Overlap(Db([], [], []), [], {}, {});
    ReachesRefl(Overlapping(), start);
    assert ["a"][..0] == [];
    x := Overlaps(start, Transact(Request.CreateOrder("A", 1, ["a"])));
  }

  /** The chain does break: two transitions that both read a created job in PENDING leave a log in which
      PENDING is left twice, and a job on hold whose file is not editable. */
  lemma OverlapCanBreakTheLog() returns (x: Overlap)
    ensures AttainedOverlap(x) && |x.db.jobs| == 1 && x.stale == {0}
    ensures Changes(x.db.outbox, 0) == [(Pending, ReceivedArtwork), (Pending, Hold)]
    ensures x.db.jobs[0].status == Hold && !x.db.jobs[0].editable
  {
    hide AttainedOverlap, Changes;
    x := OneOrder();
    x := Overlaps(x, ReadJob(0, ReceivedArtwork, None, None));
    x := Overlaps(x, ReadJob(0, Hold, None, None));
    CommitChanges(x.db, x.readings[0], 0);
    x := Overlaps(x, CommitRead(0));
    CommitChanges(x.db, x.readings[0], 0);
    x := Overlaps(x, CommitRead(0));
  }
}
