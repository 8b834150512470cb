/** Orders, their jobs, and the events the ordering use cases stage with each change. */
module Ordering {
  import opened Commits
  import opened JobStates
  import opened Wire

  datatype OrderRow = OrderRow(number: string, user: int)

  datatype JobRow = JobRow(uuid: string, order: nat, status: Status, editable: bool)

  datatype OrderingEvent =
    | OrderCreated(order: nat, number: string, user: int, jobIds: seq<string>)
    | JobStatusChanged(job: nat, uuid: string, from: Status, to: Status, actor: Option<int>, reason: string)

  /** The committed tables; an id is a row's position. */
  datatype Db = Db(orders: seq<OrderRow>, jobs: seq<JobRow>, outbox: seq<OrderingEvent>)

  datatype Request =
    | CreateOrder(number: string, user: int, uuids: seq<string>)
    | TransitionJob(job: nat, to: Status, actor: Option<int>, reason: Option<string>)

  datatype Response = Done | JobNotFound | InvalidTransition | Failed

  const WIDTH := 32

  function Text(s: Status): string {
    match s
    case Pending => "PENDING"
    case ReceivedArtwork => "RECEIVED_ARTWORK"
    case Prepress => "PREPRESS"
    case Batched => "BATCHED"
    case Hold => "HOLD"
    case Canceled => "CANCELED"
    case Complete => "COMPLETE"
    case Other(text) => text
  }

  /** `command.reason or ...` */
  function ReasonFor(reason: Option<string>, from: Status, to: Status): string {
    if reason.Some? && reason.value != "" then reason.value
    else "Status: " + Text(from) + " -> " + Text(to)
  }

  predicate UuidTaken(jobs: seq<JobRow>, uuid: string) {
    exists j | 0 <= j < |jobs| :: jobs[j].uuid == uuid
  }

  predicate NumberTaken(orders: seq<OrderRow>, number: string) {
    exists o | 0 <= o < |orders| :: orders[o].number == number
  }

  /** Inserting the jobs one by one; the columns are unique and hold at most 32 characters. */
  function InsertJobs(jobs: seq<JobRow>, order: nat, uuids: seq<string>): Option<seq<JobRow>> {
    if uuids == [] then Some(jobs)
    else
      var uuid := uuids[|uuids| - 1];
      match InsertJobs(jobs, order, uuids[..|uuids| - 1])
      case None => None
      case Some(front) =>
        if |uuid| <= WIDTH && !UuidTaken(front, uuid) then Some(front + [JobRow(uuid, order, Pending, true)]) else None
  }

  function ChangeOf(db: Db, job: nat, to: Status, actor: Option<int>, reason: Option<string>): OrderingEvent
    requires job < |db.jobs|
  {
    var row := db.jobs[job];
    JobStatusChanged(job, row.uuid, row.status, to, actor, ReasonFor(reason, row.status, to))
  }

  /** What a request writes in its transaction, or `None` if it raises. */
  function Execute(db: Db, r: Request): Option<Db> {
    match r
    case CreateOrder(number, user, uuids) =>
      if |number| > WIDTH || NumberTaken(db.orders, number) then None
      else
        (match InsertJobs(db.jobs, |db.orders|, uuids)
         case None => None
         case Some(jobs) =>
           Some(Db(db.orders + [OrderRow(number, user)], jobs,
                   db.outbox + [OrderCreated(|db.orders|, number, user, uuids)])))
    case TransitionJob(job, to, actor, reason) =>
      if job >= |db.jobs| || !CanTransition(db.jobs[job].status, to) then None
      else
        Some(db.(jobs := db.jobs[job := db.jobs[job].(status := to, editable := FileEditable(to))],
                 outbox := db.outbox + [ChangeOf(db, job, to, actor, reason)]))
  }

  /** A transaction: what it writes if its commit takes effect, nothing otherwise. */
  function After(db: Db, r: Request, applied: bool): Db {
    match Execute(db, r)
    case None => db
    case Some(next) => if applied then next else db
  }

  /** Order numbers and job ids are unique and fit columns of 32 characters. */
  predicate Creatable(db: Db, number: string, uuids: seq<string>) {
    && |number| <= 32 && (forall o | 0 <= o < |db.orders| :: db.orders[o].number != number)
    && (forall i | 0 <= i < |uuids| :: |uuids[i]| <= 32)
    && (forall i, j | 0 <= i < |uuids| && 0 <= j < |db.jobs| :: db.jobs[j].uuid != uuids[i])
    && (forall i, j | 0 <= i < j < |uuids| :: uuids[i] != uuids[j])
  }

  /** `after` has one more order, its jobs, all pending and editable, and its event, which lists them in order. */
  predicate Created(db: Db, after: Db, number: string, user: int, uuids: seq<string>) {
    && after.orders == db.orders + [OrderRow(number, user)]
    && |after.jobs| == |db.jobs| + |uuids| && after.jobs[..|db.jobs|] == db.jobs
    && (forall i | 0 <= i < |uuids| :: after.jobs[|db.jobs| + i] == JobRow(uuids[i], |db.orders|, Pending, true))
    && after.outbox == db.outbox + [OrderCreated(|db.orders|, number, user, uuids)]
  }

  lemma {:induction false} JobsInserted(jobs: seq<JobRow>, order: nat, uuids: seq<string>)
    ensures InsertJobs(jobs, order, uuids).Some? <==>
            && (forall i | 0 <= i < |uuids| :: |uuids[i]| <= 32)
            && (forall i, j | 0 <= i < |uuids| && 0 <= j < |jobs| :: jobs[j].uuid != uuids[i])
            && (forall i, j | 0 <= i < j < |uuids| :: uuids[i] != uuids[j])
    ensures InsertJobs(jobs, order, uuids).Some? ==>
              var all := InsertJobs(jobs, order, uuids).value;
              && |all| == |jobs| + |uuids| && all[..|jobs|] == jobs
              && forall i | 0 <= i < |uuids| :: all[|jobs| + i] == JobRow(uuids[i], order, Pending, true)
  {
    if uuids != [] {
      var k := |uuids| - 1;
      JobsInserted(jobs, order, uuids[..k]);
      if InsertJobs(jobs, order, uuids[..k]).Some? {
        TakenExactly(jobs, order, uuids);
      }
    }
  }

  lemma TakenExactly(jobs: seq<JobRow>, order: nat, uuids: seq<string>)
    requires uuids != [] && InsertJobs(jobs, order, uuids[..|uuids| - 1]).Some?
    requires var front := InsertJobs(jobs, order, uuids[..|uuids| - 1]).value;
             && |front| == |jobs| + |uuids| - 1 && front[..|jobs|] == jobs
             && forall i | 0 <= i < |uuids| - 1 :: front[|jobs| + i] == JobRow(uuids[i], order, Pending, true)
    ensures var front, uuid := InsertJobs(jobs, order, uuids[..|uuids| - 1]).value, uuids[|uuids| - 1];
            UuidTaken(front, uuid) <==>
            (exists j | 0 <= j < |jobs| :: jobs[j].uuid == uuid) || exists i | 0 <= i < |uuids| - 1 :: uuids[i] == uuid
  {
    hide InsertJobs;
    var front, uuid := InsertJobs(jobs, order, uuids[..|uuids| - 1]).value, uuids[|uuids| - 1];
    forall j | 0 <= j < |jobs| ensures front[j].uuid == jobs[j].uuid { assert front[..|jobs|][j] == jobs[j]; }
    if UuidTaken(front, uuid) {
      var j :| 0 <= j < |front| && front[j].uuid == uuid;
      if j >= |jobs| {
        assert front[|jobs| + (j - |jobs|)].uuid == uuids[j - |jobs|];
      }
    } else {
      forall i | 0 <= i < |uuids| - 1 ensures uuids[i] != uuid { assert front[|jobs| + i].uuid == uuids[i]; }
    }
  }

  lemma CreateExactly(db: Db, r: Request)
    requires r.CreateOrder?
    ensures Execute(db, r).Some? <==> Creatable(db, r.number, r.uuids)
    ensures Execute(db, r).Some? ==> Created(db, Execute(db, r).value, r.number, r.user, r.uuids)
  {
    hide InsertJobs;
    JobsInserted(db.jobs, |db.orders|, r.uuids);
  }

  /** `after` has the job in its new status and one more event, which says from where it came, for whom and why;
      without a reason the event gives the two statuses. */
  predicate Transitioned(db: Db, after: Db, job: nat, to: Status, actor: Option<int>, reason: Option<string>)
    requires job < |db.jobs|
  {
    var row := db.jobs[job];
    var text := if reason.Some? && |reason.value| > 0 then reason.value
                else "Status: " + Text(row.status) + " -> " + Text(to);
    && after.orders == db.orders
    && |after.jobs| == |db.jobs|
    && (forall j | 0 <= j < |db.jobs| && j != job :: after.jobs[j] == db.jobs[j])
    && after.jobs[job] == JobRow(row.uuid, row.order, to, to.Pending? || to.Hold?)
    && after.outbox == db.outbox + [JobStatusChanged(job, row.uuid, row.status, to, actor, text)]
  }

  class OrderingDesk {
    var db: Db

    constructor ()
      ensures db == Db([], [], [])
    {
      db := Db([], [], []);
    }

    /** `CreateOrderUseCase.execute` in a durable unit of work. */
    method CreateOrder(number: string, user: int, uuids: seq<string>, commit: CommitFate) returns (response: Response)
      requires PossibleCommit(commit)
      modifies this
      ensures db == After(old(db), Request.CreateOrder(number, user, uuids), commit.applied)
      ensures response == if Creatable(old(db), number, uuids) && !commit.raised then Done else Failed
      ensures if Creatable(old(db), number, uuids) && commit.applied
              then Created(old(db), db, number, user, uuids) else db == old(db)
    {
      CreateExactly(db, Request.CreateOrder(number, user, uuids));
      if |number| > WIDTH || NumberTaken(db.orders, number) {
        return Failed;
      }
      var order := |db.orders|;
      var orders := db.orders + [OrderRow(number, user)];
      var jobs, jobIds := db.jobs, [];
      for i := 0 to |uuids|
        invariant InsertJobs(db.jobs, order, uuids[..i]) == Some(jobs)
        invariant jobIds == uuids[..i] && db == old(db)
      {
        assert uuids[..i + 1][..i] == uuids[..i];
        if |uuids[i]| > WIDTH || UuidTaken(jobs, uuids[i]) {
          InsertFails(db.jobs, order, uuids, i + 1);
          return Failed;
        }
        var job := new Job(|jobs|, uuids[i], Pending, true);
        jobs := jobs + [JobRow(job.uuid, order, job.status, job.fileEditable)];
        jobIds := jobIds + [job.uuid];
      }
      assert uuids[..|uuids|] == uuids;
      var outbox := db.outbox + [OrderCreated(order, number, user, jobIds)];
      if commit.applied {
        db := Db(orders, jobs, outbox);
      }
      response := if commit.raised then Failed else Done;
    }

    /** `TransitionJobStatusUseCase.execute` in a durable unit of work. */
    method TransitionJobStatus(id: nat, to: Status, actor: Option<int>, reason: Option<string>, commit: CommitFate)
      returns (response: Response)
      requires PossibleCommit(commit)
      modifies this
      ensures db == After(old(db), TransitionJob(id, to, actor, reason), commit.applied)
      ensures response == (
                if id >= |old(db).jobs| then JobNotFound
                else if !Allowed(old(db).jobs[id].status, to) then InvalidTransition
                else if commit.raised then Failed else Done)
      ensures if id < |old(db).jobs| && Allowed(old(db).jobs[id].status, to) && commit.applied
              then Transitioned(old(db), db, id, to, actor, reason) else db == old(db)
    {
      if id >= |db.jobs| {
        return JobNotFound;
      }
      var row := db.jobs[id];
      var job := new Job(id, row.uuid, row.status, row.editable);
      var from := job.status;
      var ok := job.TransitionTo(to);
      if !ok {
        return InvalidTransition;
      }
      var updated := row.(status := job.status, editable := job.fileEditable);
      var event := JobStatusChanged(id, updated.uuid, from, updated.status, actor,
          ReasonFor(reason, from, updated.status));
      if commit.applied {
        db := db.(jobs := db.jobs[id := updated], outbox := db.outbox + [event]);
      }
      response := if commit.raised then Failed else Done;
    }
  }

  lemma {:induction false} InsertFails(jobs: seq<JobRow>, order: nat, uuids: seq<string>, n: nat)
    requires n <= |uuids| && InsertJobs(jobs, order, uuids[..n]).None?
    ensures InsertJobs(jobs, order, uuids).None?
    decreases |uuids| - n
  {
    if n == |uuids| {
      assert uuids[..n] == uuids;
    } else {
      assert uuids[..n + 1][..n] == uuids[..n];
      InsertFails(jobs, order, uuids, n + 1);
    }
  }

  /** The event as the bus stages it. */
  function AsEvent(e: OrderingEvent): Event {
    match e
    case OrderCreated(order, number, user, jobIds) =>
      Event("app.modules.ordering.domain.events", "OrderCreated",
            map["order_id" := PyInt(order), "order_number" := PyStr(number), "user_id" := PyInt(user),
                "job_ids" := PyList(seq(|jobIds|, i requires 0 <= i < |jobIds| => PyStr(jobIds[i])))])
    case JobStatusChanged(job, uuid, from, to, actor, reason) =>
      Event("app.modules.ordering.domain.events", "JobStatusChanged",
            map["job_id" := PyInt(job), "job_uuid" := PyStr(uuid), "old_status" := PyStr(Text(from)),
                "new_status" := PyStr(Text(to)), "user_id" := if actor.Some? then PyInt(actor.value) else PyNone,
                "reason" := PyStr(reason)])
  }

  /** Every ordering event survives the wire: staging it never fails. */
  lemma OrderingEventsAreNative(e: OrderingEvent)
    ensures NativeFields(AsEvent(e).fields)
  {
  }

  /** What a consumer finds in an ordering event. */
  lemma OrderingEventsSay(e: OrderingEvent)
    ensures ClassPath(AsEvent(e)) ==
            "app.modules.ordering.domain.events." + if e.OrderCreated? then "OrderCreated" else "JobStatusChanged"
    ensures var f := AsEvent(e).fields;
            match e
            case OrderCreated(order, number, user, jobIds) =>
              && f.Keys == {"order_id", "order_number", "user_id", "job_ids"}
              && f["order_id"] == PyInt(order) && f["order_number"] == PyStr(number) && f["user_id"] == PyInt(user)
              && f["job_ids"].PyList? && |f["job_ids"].items| == |jobIds|
              && (forall i | 0 <= i < |jobIds| :: f["job_ids"].items[i] == PyStr(jobIds[i]))
            case JobStatusChanged(job, uuid, from, to, actor, reason) =>
              && f.Keys == {"job_id", "job_uuid", "old_status", "new_status", "user_id", "reason"}
              && f["job_id"] == PyInt(job) && f["job_uuid"] == PyStr(uuid)
              && f["old_status"].PyStr? && StatusNamed(f["old_status"].text) == Known(from)
              && f["new_status"].PyStr? && StatusNamed(f["new_status"].text) == Known(to)
              && (actor.None? ==> f["user_id"] == PyNone) && (actor.Some? ==> f["user_id"] == PyInt(actor.value))
              && f["reason"] == PyStr(reason)
  {
    match e
    case OrderCreated(_, _, _, _) =>
    case JobStatusChanged(_, _, from, to, _, _) =>
      TextNames(from);
      TextNames(to);
  }

  /** The status a string stands for. */
  function StatusNamed(text: string): Status {
    if text == "PENDING" then Pending
    else if text == "RECEIVED_ARTWORK" then ReceivedArtwork
    else if text == "PREPRESS" then Prepress
    else if text == "BATCHED" then Batched
    else if text == "HOLD" then Hold
    else if text == "CANCELED" then Canceled
    else if text == "COMPLETE" then Complete
    else Other(text)
  }

  /** `Other` holding one of the seven known names is that status. */
  function Known(s: Status): Status {
    if s.Other? then StatusNamed(s.text) else s
  }

  lemma TextNames(s: Status)
    ensures StatusNamed(Text(s)) == Known(s)
  {
  }
}
