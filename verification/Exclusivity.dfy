/** When a message is never both handled and dead-lettered. */
module Exclusivity {
  import opened Delivery
  import opened DeliverySafety
  import opened Runs
  import opened Wire

  predicate LiveOn(s: State, id: nat, j: nat) {
    j < |s.tasks| && s.tasks[j].id == id && !s.tasks[j].pc.Ended?
  }

  predicate NoneLive(s: State, id: nat) {
    forall j: nat | 0 <= j < |s.tasks| :: !LiveOn(s, id, j)
  }

  predicate NoneCopied(s: State, id: nat) {
    forall j: nat | 0 <= j < |s.tasks| && s.tasks[j].id == id :: s.tasks[j].copy.None?
  }

  /** Every delivery of the message so far had a readable number. */
  predicate AllRead(s: State, id: nat) {
    forall j: nat | 0 <= j < |s.tasks| && s.tasks[j].id == id :: s.tasks[j].metadata
  }

  /** What can make a message both: a delivery that overlaps another one, an ack that is lost or raises, a
      crash between the last handler and the ack, or a redelivery after a dead letter was stored too early,
      for want of a readable delivery number. */
  datatype Lapse = Overlap | AckFails | AckCrashes | CopyOutlived

  predicate Commits(s: State, l: Step, id: nat, lapse: Lapse) {
    match lapse
    case Overlap => l.Deliver? && l.id == id && !NoneLive(s, id)
    case AckFails => l.Ack? && l.task < |s.tasks| && s.tasks[l.task].id == id && !(l.applied && !l.raised)
    case AckCrashes => l.Crash? && l.task < |s.tasks| && s.tasks[l.task].id == id && s.tasks[l.task].pc.Acking?
    case CopyOutlived => l.Deliver? && l.id == id && !NoneCopied(s, id) && !AllRead(s, id)
  }

  /** The pipeline with no lapse on message `id`, except the one allowed. */
  ghost function Orderly(cfg: Config, id: nat, allowed: Option<Lapse>): Machine<State, Step> {
    Machine((s, l) => Enabled(cfg, s, l) && Behaves(s, l, id, allowed), (s, l) => Apply(cfg, s, l))
  }

  ghost predicate Behaves(s: State, l: Step, id: nat, allowed: Option<Lapse>) {
    forall lapse :: Some(lapse) != allowed ==> !Commits(s, l, id, lapse)
  }

  predicate On(s: State, id: nat, j: nat) {
    j < |s.tasks| && s.tasks[j].id == id
  }

  predicate Completed(cfg: Config, s: State, id: nat, j: nat)
    requires id < |s.log|
  {
    On(s, id, j) && s.tasks[j].done == Handlers(cfg, s.log[id])
  }

  /** At most one delivery of the message is under way. */
  ghost predicate OneAtATime(s: State, id: nat) {
    forall j: nat, k: nat :: LiveOn(s, id, j) && LiveOn(s, id, k) ==> j == k
  }

  /** A delivery that completed its handlers is about to ack, or it released the message and was the last. */
  ghost predicate CompletionReleases(cfg: Config, s: State, id: nat)
    requires id < |s.log| && id < |s.retained|
  {
    forall j: nat | Completed(cfg, s, id, j) ::
      s.tasks[j].pc.Acking? || (s.tasks[j].pc.Ended? && !s.retained[id] && NoneLive(s, id))
  }

  /** Once a copy is stored no delivery has completed, and none is under way but the one that stored it. */
  ghost predicate CopyIsLast(cfg: Config, s: State, id: nat)
    requires id < |s.log|
  {
    forall j: nat, k: nat | On(s, id, j) && s.tasks[j].copy.Some? && On(s, id, k) ::
      !Completed(cfg, s, id, k) && (LiveOn(s, id, k) ==> s.tasks[k].copy.Some?)
  }

  /** With a readable number, a decodable message is dead-lettered at its last delivery only. */
  ghost predicate CopiedAtLimit(cfg: Config, s: State, id: nat) {
    forall j: nat | On(s, id, j) && s.tasks[j].metadata && (s.tasks[j].copy.Some? || s.tasks[j].pc.DeadLettering?) ::
      s.tasks[j].number == cfg.maxDeliver
  }

  ghost predicate Exclusive(cfg: Config, s: State, id: nat) {
    id < |s.log| && id < |s.retained| && Decodable(cfg, s.log[id]) ==>
      && OneAtATime(s, id) && CompletionReleases(cfg, s, id) && CopyIsLast(cfg, s, id) && CopiedAtLimit(cfg, s, id)
  }

  lemma OrderlyStep(s: State, l: Step, id: nat)
    requires Behaves(s, l, id, None)
    ensures !Commits(s, l, id, Overlap) && !Commits(s, l, id, AckFails)
    ensures !Commits(s, l, id, AckCrashes) && !Commits(s, l, id, CopyOutlived)
  {
  }

  /** A step that is neither a delivery of the message nor a step of one of its tasks changes nothing here. */
  lemma Elsewhere(cfg: Config, s: State, l: Step, id: nat)
    requires Shape(cfg, s) && Enabled(cfg, s, l) && id < |s.log|
    requires !(l.Deliver? && l.id == id) && !(IsTaskStep(l) && On(s, id, l.task))
    ensures var t := Apply(cfg, s, l);
            && id < |t.log| && id < |t.retained| && t.log[id] == s.log[id] && t.retained[id] == s.retained[id]
            && (forall j: nat :: On(t, id, j) <==> On(s, id, j))
            && (forall j: nat | On(s, id, j) :: t.tasks[j] == s.tasks[j])
  {
  }

  lemma SameTasks(cfg: Config, s: State, t: State, id: nat)
    requires id < |s.log| && id < |s.retained| && id < |t.log| && id < |t.retained|
    requires t.log[id] == s.log[id] && t.retained[id] == s.retained[id]
    requires forall j: nat :: On(t, id, j) <==> On(s, id, j)
    requires forall j: nat | On(s, id, j) :: On(t, id, j) && t.tasks[j] == s.tasks[j]
    requires Exclusive(cfg, s, id)
    ensures Exclusive(cfg, t, id)
  {
    hide Decodable, Handlers;
    assert forall j: nat :: LiveOn(t, id, j) <==> LiveOn(s, id, j);
    assert forall j: nat :: Completed(cfg, t, id, j) <==> Completed(cfg, s, id, j);
    assert NoneLive(s, id) ==> NoneLive(t, id);
  }

  /** A new delivery finds nothing completed and nothing copied. */
  lemma DeliveryKeepsExclusive(cfg: Config, s: State, metadata: bool, id: nat)
    requires ValidConfig(cfg) && Inv(cfg, s) && Exclusive(cfg, s, id)
    requires Enabled(cfg, s, Deliver(id, metadata)) && Behaves(s, Deliver(id, metadata), id, None)
    ensures Exclusive(cfg, Apply(cfg, s, Deliver(id, metadata)), id)
  {
    hide Behaves, Decodable, CopyOk, WriterOk, RowOk, Settled, Persisted;
    OrderlyStep(s, Deliver(id, metadata), id);
    if Decodable(cfg, s.log[id]) {
      forall j: nat | On(s, id, j) ensures !LiveOn(s, id, j) && !Completed(cfg, s, id, j) && s.tasks[j].copy.None? {
        assert TaskOk(cfg, s, j) && !LiveOn(s, id, j);
      }
      var t := Apply(cfg, s, Deliver(id, metadata));
      assert forall j: nat | On(t, id, j) :: On(s, id, j) || j == |s.tasks|;
      assert Handlers(cfg, s.log[id]) >= 1;
    }
  }

  /** What a step of task `k` on the message does to the facts about the others. */
  lemma TaskFrame(cfg: Config, s: State, l: Step, id: nat)
    requires Inv(cfg, s) && Enabled(cfg, s, l) && id < |s.log| && IsTaskStep(l) && On(s, id, l.task)
    ensures var t := Apply(cfg, s, l);
            && t.log == s.log && |t.retained| == |s.retained| && LiveOn(s, id, l.task) && On(t, id, l.task)
            && (forall j: nat :: On(t, id, j) <==> On(s, id, j))
            && (forall j: nat | On(s, id, j) && j != l.task :: t.tasks[j] == s.tasks[j])
            && (t.retained[id] ==> s.retained[id])
            && t.tasks[l.task].number == s.tasks[l.task].number && t.tasks[l.task].metadata == s.tasks[l.task].metadata
            && (s.tasks[l.task].copy.Some? ==> t.tasks[l.task].copy.Some?)
            && (LiveOn(t, id, l.task) ==> LiveOn(s, id, l.task))
  {
  }

  /** What the step does to the task itself. */
  lemma ActingTask(cfg: Config, s: State, l: Step, id: nat)
    requires ValidConfig(cfg) && Inv(cfg, s) && Enabled(cfg, s, l) && id < |s.log|
    requires IsTaskStep(l) && On(s, id, l.task) && Decodable(cfg, s.log[id]) && Behaves(s, l, id, None)
    ensures var t, x, y := Apply(cfg, s, l), s.tasks[l.task], Apply(cfg, s, l).tasks[l.task];
            && (y.done == Handlers(cfg, s.log[id]) ==>
                  || y.pc.Acking? || (x.pc.Acking? && y.pc.Ended? && !t.retained[id])
                  || (x.done == Handlers(cfg, s.log[id]) && !x.pc.Acking?))
            && (y.copy.Some? ==> x.copy.Some? || (x.pc.DeadLettering? && y.done == x.done))
            && (y.pc.DeadLettering? && x.metadata ==> y.number == cfg.maxDeliver)
            && (x.copy.Some? ==> y.done == x.done)
  {
    hide Behaves, CopyOk, WriterOk, RowOk, Settled, Persisted, Decode;
    OrderlyStep(s, l, id);
    assert TaskOk(cfg, s, l.task);
  }

  lemma TaskStepKeepsExclusive(cfg: Config, s: State, l: Step, id: nat)
    requires ValidConfig(cfg) && Inv(cfg, s) && Exclusive(cfg, s, id) && Enabled(cfg, s, l) && Behaves(s, l, id, None)
    requires id < |s.log| && IsTaskStep(l) && On(s, id, l.task) && Decodable(cfg, s.log[id])
    ensures Exclusive(cfg, Apply(cfg, s, l), id)
  {
    TaskFrame(cfg, s, l, id);
    ActingTask(cfg, s, l, id);
    var k, t := l.task, Apply(cfg, s, l);
    assert TaskOk(cfg, s, k);
    hide Behaves, Decodable, Apply, Enabled, CopyOk, WriterOk, RowOk, TaskOk, Settled, Persisted, Handlers;
    assert LiveOn(s, id, k) && OneAtATime(s, id);
    forall j: nat | On(s, id, j) && j != k ensures !LiveOn(t, id, j) && !LiveOn(s, id, j) {
      assert !LiveOn(s, id, j) && t.tasks[j] == s.tasks[j];
    }
    forall j: nat | On(s, id, j) && j != k ensures !Completed(cfg, s, id, j) && !Completed(cfg, t, id, j) {
      assert Completed(cfg, s, id, j) <==> Completed(cfg, t, id, j);
      assert !NoneLive(s, id) && !LiveOn(s, id, j);
    }
    forall j: nat | Completed(cfg, t, id, j)
      ensures t.tasks[j].pc.Acking? || (t.tasks[j].pc.Ended? && !t.retained[id] && NoneLive(t, id))
    {
      assert j == k;
      assert s.tasks[k].done == Handlers(cfg, s.log[id]) ==> Completed(cfg, s, id, k);
    }
    forall i: nat, j: nat | On(t, id, i) && t.tasks[i].copy.Some? && On(t, id, j)
      ensures !Completed(cfg, t, id, j) && (LiveOn(t, id, j) ==> t.tasks[j].copy.Some?)
    {
      CopyStaysLast(cfg, s, t, id, k, i, j);
    }
  }

  lemma CopyStaysLast(cfg: Config, s: State, t: State, id: nat, k: nat, i: nat, j: nat)
    requires Exclusive(cfg, s, id) && id < |s.log| && id < |s.retained| && Decodable(cfg, s.log[id])
    requires t.log == s.log && LiveOn(s, id, k) && On(s, id, i) && On(s, id, j)
    requires On(t, id, i) && On(t, id, j) && On(t, id, k)
    requires forall n: nat | On(s, id, n) && n != k :: n < |t.tasks| && t.tasks[n] == s.tasks[n]
    requires t.tasks[i].copy.Some?
    requires var x, y := s.tasks[k], t.tasks[k];
             && (y.copy.Some? ==> x.copy.Some? || (x.pc.DeadLettering? && y.done == x.done))
             && (x.copy.Some? ==> y.done == x.done && y.copy.Some?)
    ensures !Completed(cfg, t, id, j) && (LiveOn(t, id, j) ==> t.tasks[j].copy.Some?)
  {
    hide Decodable, Handlers;
    if s.tasks[i].copy.Some? {
      assert !Completed(cfg, s, id, j) && s.tasks[k].copy.Some?;
    } else {
      assert i == k && s.tasks[k].pc.DeadLettering?;
      assert Completed(cfg, s, id, j) ==> s.tasks[j].pc.Acking? || !NoneLive(s, id);
      assert LiveOn(s, id, j) ==> j == k;
    }
  }

  lemma StepKeepsExclusive(cfg: Config, s: State, l: Step, id: nat)
    requires ValidConfig(cfg) && Inv(cfg, s) && Exclusive(cfg, s, id) && Enabled(cfg, s, l) && Behaves(s, l, id, None)
    ensures Exclusive(cfg, Apply(cfg, s, l), id)
  {
    hide Behaves, Decodable, Exclusive, Apply, Enabled, CopyOk, WriterOk, RowOk, TaskOk, Settled, Persisted;
    var t := Apply(cfg, s, l);
    if id >= |s.log| {
      NotYetAccepted(cfg, s, l, id);
    } else if l.Deliver? && l.id == id {
      DeliveryKeepsExclusive(cfg, s, l.metadata, id);
    } else if IsTaskStep(l) && On(s, id, l.task) {
      if Decodable(cfg, s.log[id]) {
        TaskStepKeepsExclusive(cfg, s, l, id);
      } else {
        Undecodable(cfg, s, l, id);
      }
    } else {
      Elsewhere(cfg, s, l, id);
      SameTasks(cfg, s, t, id);
    }
  }

  lemma NoTasks(cfg: Config, t: State, id: nat)
    requires forall j: nat :: !On(t, id, j)
    ensures Exclusive(cfg, t, id)
  {
    forall j: nat ensures !LiveOn(t, id, j) {
      assert !On(t, id, j);
    }
    if id < |t.log| {
      forall j: nat ensures !Completed(cfg, t, id, j) {
        assert !On(t, id, j);
      }
    }
  }

  lemma NotYetAccepted(cfg: Config, s: State, l: Step, id: nat)
    requires Inv(cfg, s) && Enabled(cfg, s, l) && id >= |s.log|
    ensures Exclusive(cfg, Apply(cfg, s, l), id)
  {
    hide Decodable, Handlers, CopyOk, WriterOk, RowOk, Settled, Persisted;
    forall j: nat ensures !On(s, id, j) {
      assert On(s, id, j) ==> TaskOk(cfg, s, j);
    }
    var t := Apply(cfg, s, l);
    if l.Accept? {
      assert t.tasks == s.tasks;
      forall j: nat ensures !On(t, id, j) {
        assert On(t, id, j) ==> On(s, id, j);
      }
      NoTasks(cfg, t, id);
    } else {
      assert t.log == s.log;
    }
  }

  lemma Undecodable(cfg: Config, s: State, l: Step, id: nat)
    requires Inv(cfg, s) && Enabled(cfg, s, l) && id < |s.log| && !Decodable(cfg, s.log[id])
    ensures Exclusive(cfg, Apply(cfg, s, l), id)
  {
  }

  /** Handled and dead-lettered exclude each other for every message on which none of the four lapses
      happens, whatever happens to all others: in every state such a run leads to, the message is not both. */
  lemma HandledOrCopied(cfg: Config, s: State, id: nat)
    requires ValidConfig(cfg) && Reaches(Orderly(cfg, id, None), Empty(), s) && id < |s.log|
    ensures !(Handled(cfg, s, id) && Copied(cfg, s, id))
  {
    hide Enabled, Apply, Exclusive, Behaves, Inv;
    forall x, l | (Inv(cfg, x) && Exclusive(cfg, x, id)) && Enabled(cfg, x, l) && Behaves(x, l, id, None)
      ensures Inv(cfg, Apply(cfg, x, l)) && Exclusive(cfg, Apply(cfg, x, l), id)
    {
      StepKeepsInv(cfg, x, l);
      StepKeepsExclusive(cfg, x, l, id);
    }
    StartsExclusive(cfg, id);
    var m := Orderly(cfg, id, None);
    var steps :| Valid(m, Empty(), steps) && Final(m, Empty(), steps) == s;
    InvariantHolds(m, x => Inv(cfg, x) && Exclusive(cfg, x, id), Empty(), steps);
    NeverBoth(cfg, s, id);
  }

  lemma StartsExclusive(cfg: Config, id: nat)
    ensures Inv(cfg, Empty()) && Exclusive(cfg, Empty(), id)
  {
  }

  lemma NeverBoth(cfg: Config, s: State, id: nat)
    requires Inv(cfg, s) && Exclusive(cfg, s, id) && id < |s.log|
    ensures !(Handled(cfg, s, id) && Copied(cfg, s, id))
  {
    hide TaskOk, CopyOk, WriterOk, RowOk, Settled, Persisted, Decodable, Handlers, IsCopyOf;
    if Handled(cfg, s, id) {
      var j: nat :| HandledBy(cfg, s, id, j);
      assert Completed(cfg, s, id, j);
      forall c: nat ensures !CopiedBy(cfg, s, id, c) {
      }
    }
  }

  /** `s` comes about with no lapse on message 0 but the allowed one, and its task `j` is at `t`. */
  ghost predicate At(cfg: Config, allowed: Lapse, s: State, m: Message, j: nat, t: Task) {
    && Reaches(Orderly(cfg, 0, Some(allowed)), Empty(), s)
    && s.log == [m] && |s.retained| == 1 && j < |s.tasks| && s.tasks[j] == t && t.id == 0
  }

  function Put(s: State, j: nat, t: Task): State
    requires j < |s.tasks|
  {
    s.(tasks := s.tasks[j := t])
  }

  lemma Go(cfg: Config, allowed: Lapse, s: State, l: Step, t: State)
    requires Reaches(Orderly(cfg, 0, Some(allowed)), Empty(), s)
    requires Enabled(cfg, s, l) && Behaves(s, l, 0, Some(allowed)) && Apply(cfg, s, l) == t
    ensures Reaches(Orderly(cfg, 0, Some(allowed)), Empty(), t)
  {
    ReachesStep(Orderly(cfg, 0, Some(allowed)), Empty(), s, l);
  }

  lemma TaskGoes(cfg: Config, allowed: Lapse, s: State, m: Message, j: nat, t: Task, l: Step, u: Task)
    requires At(cfg, allowed, s, m, j, t) && Enabled(cfg, s, l) && Apply(cfg, s, l) == Put(s, j, u) && u.id == 0
    requires !l.Deliver? && !l.Ack? && !l.Crash?
    ensures At(cfg, allowed, Put(s, j, u), m, j, u)
  {
    Go(cfg, allowed, s, l, Put(s, j, u));
  }

  lemma Parses(cfg: Config, allowed: Lapse, s: State, m: Message, j: nat, t: Task)
    requires At(cfg, allowed, s, m, j, t) && t.pc.Received? && Decodable(cfg, m)
    ensures var u := t.(pc := NextHandler(0, Handlers(cfg, m))); At(cfg, allowed, Put(s, j, u), m, j, u)
  {
    assert Loadable(m.data);
    hide Valid, Final, Decode, Reaches;
    TaskGoes(cfg, allowed, s, m, j, t, Parse(j), t.(pc := NextHandler(0, Handlers(cfg, m))));
  }

  lemma HandlerReturns(cfg: Config, allowed: Lapse, s: State, m: Message, j: nat, t: Task)
    requires At(cfg, allowed, s, m, j, t) && t.pc.Handling?
    ensures var u := t.(done := t.done + 1, pc := NextHandler(t.done + 1, Handlers(cfg, m)));
            At(cfg, allowed, Put(s, j, u), m, j, u)
  {
    hide Valid, Final, Reaches;
    var u := t.(done := t.done + 1, pc := NextHandler(t.done + 1, Handlers(cfg, m)));
    TaskGoes(cfg, allowed, s, m, j, t, HandlerOk(j), u);
  }

  lemma {:induction false} Handles(cfg: Config, allowed: Lapse, s: State, m: Message, j: nat, t: Task, done: nat)
    requires At(cfg, allowed, s, m, j, t) && t.pc.Received? && t.done == 0 && Decodable(cfg, m)
    requires done <= Handlers(cfg, m)
    ensures var u := t.(done := done, pc := NextHandler(done, Handlers(cfg, m))); At(cfg, allowed, Put(s, j, u), m, j,
        u)
  {
    hide Reaches, Decodable, Handlers;
    if done == 0 {
      Parses(cfg, allowed, s, m, j, t);
    } else {
      var before := t.(done := done - 1, pc := Handling);
      var u := t.(done := done, pc := NextHandler(done, Handlers(cfg, m)));
      Handles(cfg, allowed, s, m, j, t, done - 1);
      HandlerReturns(cfg, allowed, Put(s, j, before), m, j, before);
      assert Put(Put(s, j, before), j, u) == Put(s, j, u);
    }
  }

  lemma Triaged(cfg: Config, allowed: Lapse, s: State, m: Message, j: nat, t: Task)
    requires At(cfg, allowed, s, m, j, t) && t.pc.Failed? && !t.metadata
    ensures var u := t.(pc := DeadLettering(t.pc.error, cfg.maxDeliver)); At(cfg, allowed, Put(s, j, u), m, j, u)
  {
    hide Valid, Final, Reaches;
    TaskGoes(cfg, allowed, s, m, j, t, Triage(j), t.(pc := DeadLettering(t.pc.error, cfg.maxDeliver)));
  }

  lemma FailsAtOnce(cfg: Config, allowed: Lapse, s: State, m: Message, j: nat, t: Task)
    requires At(cfg, allowed, s, m, j, t) && t.pc.Received? && t.done == 0 && !t.metadata && Decodable(cfg, m)
    requires Handlers(cfg, m) >= 1
    ensures var u := t.(pc := DeadLettering("failed", cfg.maxDeliver)); At(cfg, allowed, Put(s, j, u), m, j, u)
  {
    hide Valid, Final, Reaches;
    var running, failed := t.(pc := Handling), t.(pc := Failed("failed"));
    var u := t.(pc := DeadLettering("failed", cfg.maxDeliver));
    Handles(cfg, allowed, s, m, j, t, 0);
    assert Put(Put(s, j, running), j, failed) == Put(s, j, failed) && Put(Put(s, j, failed), j, u) == Put(s, j, u);
    TaskGoes(cfg, allowed, Put(s, j, running), m, j, running, HandlerRaise(j, "failed"), failed);
    Triaged(cfg, allowed, Put(s, j, failed), m, j, failed);
  }

  lemma Stores(cfg: Config, allowed: Lapse, s: State, m: Message, j: nat, t: Task, raised: bool)
    requires At(cfg, allowed, s, m, j, t) && t.pc.DeadLettering?
    ensures var n := Apply(cfg, s, DlqPublish(j, true, raised));
            && At(cfg, allowed, n, m, j, t.(pc := if raised then Naking else Confirming, copy := Some(|s.dlq|)))
            && n.delivered == s.delivered && n.retained == s.retained && |n.tasks| == |s.tasks|
            && (forall i | 0 <= i < |s.tasks| && i != j :: n.tasks[i] == s.tasks[i])
            && |n.dlq| == |s.dlq| + 1 && |n.dlqFrom| == |s.dlqFrom| + 1 && n.dlqFrom[|s.dlqFrom|] == j
            && IsCopyOf(cfg, m, n.dlq[|s.dlq|])
  {
    hide Valid, Final;
    Go(cfg, allowed, s, DlqPublish(j, true, raised), Apply(cfg, s, DlqPublish(j, true, raised)));
  }

  lemma FirstDelivery(cfg: Config, allowed: Lapse, m: Message) returns (s: State)
    requires ValidConfig(cfg) && m.subject in cfg.handlers
    ensures At(cfg, allowed, s, m, 0, Task(0, 1, false, 0, Received, None))
    ensures s == State([m], [true], [1], [Task(0, 1, false, 0, Received, None)], [], [], [], [], [], [], [])
  {
    hide Valid, Final;
    ReachesRefl(Orderly(cfg, 0, Some(allowed)), Empty());
    var accepted := State([m], [true], [0], [], [], [], [], [], [], [], []);
    Go(cfg, allowed, Empty(), Accept(m), accepted);
    s := accepted.(delivered := [1], tasks := [Task(0, 1, false, 0, Received, None)]);
    Go(cfg, allowed, accepted, Deliver(0, false), s);
  }

  lemma SecondDelivery(cfg: Config, allowed: Lapse, s: State, m: Message)
    requires Reaches(Orderly(cfg, 0, Some(allowed)), Empty(), s) && cfg.maxDeliver >= 2 && m.subject in cfg.handlers
    requires s.log == [m] && s.retained == [true] && s.delivered == [1] && |s.tasks| == 1
    requires allowed == Overlap || s.tasks[0].pc.Ended? || s.tasks[0].id != 0
    requires allowed == CopyOutlived || s.tasks[0].copy.None?
    ensures var t := Task(0, 2, false, 0, Received, None);
            At(cfg, allowed, s.(delivered := [2], tasks := s.tasks + [t]), m, 1, t)
  {
    hide Valid, Final;
    Go(cfg, allowed, s, Deliver(0, false),
        s.(delivered := [2], tasks := s.tasks + [Task(0, 2, false, 0, Received, None)]));
  }

  lemma AckRaises(cfg: Config, m: Message) returns (s: State)
    requires ValidConfig(cfg) && m.subject in cfg.handlers && Decodable(cfg, m)
    ensures Reaches(Orderly(cfg, 0, Some(AckFails)), Empty(), s) && s.log == [m] && Handled(cfg, s, 0)
        && Copied(cfg, s, 0)
  {
    hide Valid, Final, Decode, Reaches;
    var total := Handlers(cfg, m);
    var s0 := FirstDelivery(cfg, AckFails, m);
    var t0 := s0.tasks[0];
    Handles(cfg, AckFails, s0, m, 0, t0, total);
    var t1 := t0.(done := total, pc := Acking);
    var t2 := t1.(pc := Failed("timeout"));
    Go(cfg, AckFails, Put(s0, 0, t1), Ack(0, false, true, "timeout"), Put(s0, 0, t2));
    Triaged(cfg, AckFails, Put(s0, 0, t2), m, 0, t2);
    var t3 := t2.(pc := DeadLettering("timeout", cfg.maxDeliver));
    assert Put(Put(s0, 0, t2), 0, t3) == Put(s0, 0, t3);
    Stores(cfg, AckFails, Put(s0, 0, t3), m, 0, t3, false);
    s := Apply(cfg, Put(s0, 0, t3), DlqPublish(0, true, false));
    assert HandledBy(cfg, s, 0, 0) && CopiedBy(cfg, s, 0, 0);
  }

  lemma AckingCrashes(cfg: Config, m: Message) returns (s: State)
    requires ValidConfig(cfg) && cfg.maxDeliver >= 2 && m.subject in cfg.handlers && Decodable(cfg, m)
    ensures Reaches(Orderly(cfg, 0, Some(AckCrashes)), Empty(), s) && s.log == [m] && Handled(cfg, s, 0)
        && Copied(cfg, s, 0)
  {
    hide Valid, Final, Decode, Reaches;
    var total := Handlers(cfg, m);
    var s0 := FirstDelivery(cfg, AckCrashes, m);
    var t0 := s0.tasks[0];
    Handles(cfg, AckCrashes, s0, m, 0, t0, total);
    var t1 := t0.(done := total, pc := Acking);
    var s1 := Put(s0, 0, t1.(pc := Ended));
    Go(cfg, AckCrashes, Put(s0, 0, t1), Crash(0), s1);
    SecondDelivery(cfg, AckCrashes, s1, m);
    var u := Task(0, 2, false, 0, Received, None);
    var s2 := s1.(delivered := [2], tasks := s1.tasks + [u]);
    FailsAtOnce(cfg, AckCrashes, s2, m, 1, u);
    var v := u.(pc := DeadLettering("failed", cfg.maxDeliver));
    Stores(cfg, AckCrashes, Put(s2, 1, v), m, 1, v, false);
    s := Apply(cfg, Put(s2, 1, v), DlqPublish(1, true, false));
    assert HandledBy(cfg, s, 0, 0) && CopiedBy(cfg, s, 0, 0);
  }

  lemma DeliveriesOverlap(cfg: Config, m: Message) returns (s: State)
    requires ValidConfig(cfg) && cfg.maxDeliver >= 2 && m.subject in cfg.handlers && Decodable(cfg, m)
    ensures Reaches(Orderly(cfg, 0, Some(Overlap)), Empty(), s) && s.log == [m] && Handled(cfg, s, 0)
        && Copied(cfg, s, 0)
  {
    hide Valid, Final, Decode, Reaches;
    var total := Handlers(cfg, m);
    var s0 := FirstDelivery(cfg, Overlap, m);
    var t := s0.tasks[0];
    SecondDelivery(cfg, Overlap, s0, m);
    var u := Task(0, 2, false, 0, Received, None);
    var s1 := s0.(delivered := [2], tasks := s0.tasks + [u]);
    FailsAtOnce(cfg, Overlap, s1, m, 1, u);
    var v := u.(pc := DeadLettering("failed", cfg.maxDeliver));
    Stores(cfg, Overlap, Put(s1, 1, v), m, 1, v, false);
    var s2 := Apply(cfg, Put(s1, 1, v), DlqPublish(1, true, false));
    Handles(cfg, Overlap, s2, m, 0, t, total);
    s := Put(s2, 0, t.(done := total, pc := NextHandler(total, total)));
    assert HandledBy(cfg, s, 0, 0) && CopiedBy(cfg, s, 0, 0);
  }

  lemma CopyIsOutlived(cfg: Config, m: Message) returns (s: State)
    requires ValidConfig(cfg) && cfg.maxDeliver >= 2 && m.subject in cfg.handlers && Decodable(cfg, m)
    ensures Reaches(Orderly(cfg, 0, Some(CopyOutlived)), Empty(), s) && s.log == [m] && Handled(cfg, s, 0)
        && Copied(cfg, s, 0)
  {
    hide Valid, Final, Decode, Reaches;
    var total := Handlers(cfg, m);
    var s0 := FirstDelivery(cfg, CopyOutlived, m);
    var t := s0.tasks[0];
    FailsAtOnce(cfg, CopyOutlived, s0, m, 0, t);
    var t1 := t.(pc := DeadLettering("failed", cfg.maxDeliver));
    Stores(cfg, CopyOutlived, Put(s0, 0, t1), m, 0, t1, true);
    var s1 := Apply(cfg, Put(s0, 0, t1), DlqPublish(0, true, true));
    var t2 := t1.(pc := Naking, copy := Some(0));
    TaskGoes(cfg, CopyOutlived, s1, m, 0, t2, Nak(0), t2.(pc := Ended));
    var s2 := Put(s1, 0, t2.(pc := Ended));
    SecondDelivery(cfg, CopyOutlived, s2, m);
    var u := Task(0, 2, false, 0, Received, None);
    var s3 := s2.(delivered := [2], tasks := s2.tasks + [u]);
    Handles(cfg, CopyOutlived, s3, m, 1, u, total);
    s := Put(s3, 1, u.(done := total, pc := NextHandler(total, total)));
    assert HandledBy(cfg, s, 0, 1) && CopiedBy(cfg, s, 0, 0);
  }

  /** None of the four conditions can be dropped: each lapse alone, with no other, makes some message of any
      configuration with two deliveries both handled and dead-lettered; an ack that fails, also with one. */
  lemma HandledAndCopiedHappens(cfg: Config, m: Message, lapse: Lapse) returns (s: State)
    requires ValidConfig(cfg) && m.subject in cfg.handlers && Decodable(cfg, m)
    requires cfg.maxDeliver >= 2 || lapse == AckFails
    ensures Reaches(Orderly(cfg, 0, Some(lapse)), Empty(), s) && s.log == [m]
    ensures Handled(cfg, s, 0) && Copied(cfg, s, 0)
  {
    hide Reaches, Handled, Copied, Decodable;
    match lapse
    case Overlap => s := DeliveriesOverlap(cfg, m);
    case AckFails => s := AckRaises(cfg, m);
    case AckCrashes => s := AckingCrashes(cfg, m);
    case CopyOutlived => s := CopyIsOutlived(cfg, m);
  }
}
