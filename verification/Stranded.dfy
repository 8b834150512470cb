/** The price of never losing a message: when it stays in the work queue for good. */
module Stranded {
  import opened Delivery
  import opened DeliverySafety
  import opened Runs
  import opened Subjects
  import opened Wire

  /** The task will never release its message: it ended, it is about to nak, it will fail to load the
      message, or it will nak because its handlers failed below the limit. */
  predicate Hopeless(cfg: Config, m: Message, t: Task) {
    || t.pc.Ended? || t.pc.Naking?
    || (t.pc.Received? && !Loadable(m.data))
    || (t.pc.Failed? && NumDelivered(t.number, t.metadata, cfg.maxDeliver) < cfg.maxDeliver)
  }

  /** The broker will not deliver the message again, or to no avail. */
  predicate NoHelpfulDelivery(cfg: Config, s: State, id: nat)
    requires id < |s.log| && id < |s.delivered|
  {
    s.delivered[id] >= cfg.maxDeliver || s.log[id].subject !in cfg.handlers || !Loadable(s.log[id].data)
  }

  /** The message is retained, no delivery will help it, and no task on it will release it. */
  predicate IsStranded(cfg: Config, s: State, id: nat) {
    && id < |s.log| && id < |s.retained| && id < |s.delivered| && s.retained[id]
    && NoHelpfulDelivery(cfg, s, id)
    && forall j | 0 <= j < |s.tasks| && s.tasks[j].id == id :: Hopeless(cfg, s.log[id], s.tasks[j])
  }

  lemma StepKeepsStranded(cfg: Config, s: State, l: Step, id: nat)
    requires Enabled(cfg, s, l) && IsStranded(cfg, s, id) && Shape(cfg, s)
    ensures IsStranded(cfg, Apply(cfg, s, l), id)
  {
    hide Decode, Storable, RowFor;
  }

  /** No run of the pipeline frees a stranded message. */
  lemma StrandedStays(cfg: Config, s: State, t: State, id: nat)
    requires Reachable(cfg, s) && IsStranded(cfg, s, id) && Reaches(Pipeline(cfg), s, t)
    ensures IsStranded(cfg, t, id)
  {
    hide Enabled, Apply, IsStranded, TaskOk, CopyOk, WriterOk, RowOk;
    ReachableOk(cfg, s);
    forall x, l | Inv(cfg, x) && Enabled(cfg, x, l) ensures Inv(cfg, Apply(cfg, x, l)) { StepKeepsInv(cfg, x, l); }
    forall x, l | Inv(cfg, x) && Enabled(cfg, x, l) && IsStranded(cfg, x, id)
      ensures IsStranded(cfg, Apply(cfg, x, l), id)
    {
      StepKeepsStranded(cfg, x, l, id);
    }
    var steps :| Valid(Pipeline(cfg), s, steps) && Final(Pipeline(cfg), s, steps) == t;
    InvariantHolds(Pipeline(cfg), x => Inv(cfg, x) && IsStranded(cfg, x, id), s, steps);
  }

  /** How many steps other than handler runs a task is from releasing its message. */
  function Distance(pc: Pc): nat {
    match pc
    case Received => 5
    case Handling => 4
    case Failed(_) => 3
    case DeadLettering(_, _) => 2
    case Acking => 1
    case Confirming => 1
    case _ => 0
  }

  /** The next step towards releasing the message. */
  function Forward(j: nat, pc: Pc): Step {
    match pc
    case Received => Parse(j)
    case Handling => HandlerOk(j)
    case Acking => Ack(j, true, false, "")
    case Failed(_) => Triage(j)
    case DeadLettering(_, _) => DlqPublish(j, true, false)
    case _ => Confirm(j, true)
  }

  lemma TaskFacts(cfg: Config, s: State, j: nat)
    requires Reachable(cfg, s) && j < |s.tasks| && s.tasks[j].id < |s.log|
    ensures var x, total := s.tasks[j], Handlers(cfg, s.log[s.tasks[j].id]);
            && x.id < |s.retained| && total >= 1 && x.done <= total && (x.pc.Handling? ==> x.done < total)
  {
    ReachableOk(cfg, s);
    assert TaskOk(cfg, s, j);
  }

  /** What the step does: it releases the message, or brings the task closer to that. */
  lemma ForwardHelps(cfg: Config, s: State, j: nat)
    requires j < |s.tasks| && s.tasks[j].id < |s.log| && s.tasks[j].id < |s.retained|
    requires !Hopeless(cfg, s.log[s.tasks[j].id], s.tasks[j]) && Handlers(cfg, s.log[s.tasks[j].id]) >= 1
    ensures Enabled(cfg, s, Forward(j, s.tasks[j].pc))
    ensures var x, t := s.tasks[j], Apply(cfg, s, Forward(j, s.tasks[j].pc));
            && j < |t.tasks| && t.tasks[j].id == x.id && t.log == s.log && x.id < |t.retained|
            && (x.pc.Acking? || x.pc.Confirming? ==> !t.retained[x.id])
            && (!(x.pc.Acking? || x.pc.Confirming?) ==>
                  && !Hopeless(cfg, t.log[x.id], t.tasks[j])
                  && (Distance(t.tasks[j].pc) < Distance(x.pc)
                      || (x.pc.Handling? && t.tasks[j].pc.Handling? && t.tasks[j].done == x.done + 1)))
  {
    hide Decodable, RowFor, Storable, DeadLetter, Captured;
  }

  /** A task that is not hopeless can release its message. */
  lemma {:induction false} TaskReleases(cfg: Config, s: State, j: nat) returns (t: State)
    requires Reachable(cfg, s) && j < |s.tasks| && s.tasks[j].id < |s.log|
        && !Hopeless(cfg, s.log[s.tasks[j].id], s.tasks[j])
    ensures Reaches(Pipeline(cfg), s, t) && s.tasks[j].id < |t.retained| && !t.retained[s.tasks[j].id]
    decreases Distance(s.tasks[j].pc), Handlers(cfg, s.log[s.tasks[j].id]) - s.tasks[j].done
  {
    hide Enabled, Apply, Hopeless, Handlers, Valid, Final;
    var pc, l := s.tasks[j].pc, Forward(j, s.tasks[j].pc);
    TaskFacts(cfg, s, j);
    ForwardHelps(cfg, s, j);
    ReachesRefl(Pipeline(cfg), s);
    ReachesStep(Pipeline(cfg), s, s, l);
    t := Apply(cfg, s, l);
    if !pc.Acking? && !pc.Confirming? {
      ReachableGrows(cfg, s, t);
      TaskFacts(cfg, t, j);
      var next := t;
      t := TaskReleases(cfg, next, j);
      ReachesTrans(Pipeline(cfg), s, next, t);
    }
  }

  /** Delivering the message once more can help. */
  lemma DeliveryReleases(cfg: Config, s: State, id: nat) returns (t: State)
    requires Reachable(cfg, s) && id < |s.log| && id < |s.retained| && id < |s.delivered| && s.retained[id]
    requires !NoHelpfulDelivery(cfg, s, id)
    ensures Reaches(Pipeline(cfg), s, t) && id < |t.retained| && !t.retained[id]
  {
    hide Valid, Final, Decode;
    ReachesRefl(Pipeline(cfg), s);
    ReachesStep(Pipeline(cfg), s, s, Deliver(id, true));
    var next := Apply(cfg, s, Deliver(id, true));
    ReachableGrows(cfg, s, next);
    t := TaskReleases(cfg, next, |s.tasks|);
    ReachesTrans(Pipeline(cfg), s, next, t);
  }

  ghost predicate CanBeReleased(cfg: Config, s: State, id: nat) {
    exists t :: Reaches(Pipeline(cfg), s, t) && id < |t.retained| && !t.retained[id]
  }

  /** When a retained message can still leave the work queue, exactly: when a task that may yet ack it or store
      a copy is at work on it, or a delivery of loadable bytes to a consumer is left. */
  lemma ReleasedOrStranded(cfg: Config, s: State, id: nat)
    requires Reachable(cfg, s) && id < |s.log| && id < |s.retained| && id < |s.delivered| && s.retained[id]
    ensures CanBeReleased(cfg, s, id) <==> !IsStranded(cfg, s, id)
  {
    hide Reachable, Hopeless, NoHelpfulDelivery, Reaches;
    if IsStranded(cfg, s, id) {
      forall t | Reaches(Pipeline(cfg), s, t) ensures id < |t.retained| && t.retained[id] {
        StrandedStays(cfg, s, t, id);
      }
    } else if !NoHelpfulDelivery(cfg, s, id) {
      var t := DeliveryReleases(cfg, s, id);
    } else {
      var j :| 0 <= j < |s.tasks| && s.tasks[j].id == id && !Hopeless(cfg, s.log[id], s.tasks[j]);
      var t := TaskReleases(cfg, s, j);
    }
  }

  /** `n` deliveries of one message whose worker crashed each time. */
  function Crashed(m: Message, n: nat): State {
    State([m], [true], [n], seq(n, i requires 0 <= i < n => Task(0, i + 1, false, 0, Ended, None)), [], [], [],
        [], [], [], [])
  }

  lemma {:induction false} WorkersCrash(cfg: Config, m: Message, n: nat)
    requires ValidConfig(cfg) && m.subject in cfg.handlers && n <= cfg.maxDeliver
    ensures Reaches(Pipeline(cfg), Empty(), Crashed(m, n))
  {
    hide Valid, Final;
    if n == 0 {
      ReachesRefl(Pipeline(cfg), Empty());
      Continue(cfg, Empty(), Accept(m), Crashed(m, 0));
    } else {
      WorkersCrash(cfg, m, n - 1);
      var s := Crashed(m, n - 1);
      var t := s.(delivered := [n], tasks := s.tasks + [Task(0, n, false, 0, Received, None)]);
      Continue(cfg, s, Deliver(0, false), t);
      Continue(cfg, t, Crash(n - 1), Crashed(m, n));
    }
  }

  /** It happens to any message with a consumer: then it is neither handled nor dead-lettered. */
  lemma StrandingHappens(cfg: Config, m: Message)
    requires ValidConfig(cfg) && m.subject in cfg.handlers
    ensures var s := Crashed(m, cfg.maxDeliver);
            Reachable(cfg, s) && s.log == [m] && IsStranded(cfg, s, 0) && !Handled(cfg, s, 0) && !Copied(cfg, s, 0)
  {
    hide Valid, Final;
    WorkersCrash(cfg, m, cfg.maxDeliver);
  }
}
