/** Bounded duplication and termination of the delivery machine, by budgets that every step pays into. */
module DeliveryBounds {
  import opened Delivery
  import opened DeliverySafety
  import opened Runs
  import opened Wire

  /** The two things a delivery of a message may do at most once: start its `k`-th handler, and store a
      copy. A handler is started when its task gets to it, whether or not it then returns. */
  datatype Use = Invoke(handler: nat) | StoreCopy

  /** Whether a task may still do it. */
  predicate May(use: Use, t: Task) {
    match use
    case Invoke(k) => t.pc.Received? || (t.pc.Handling? && t.done < k)
    case StoreCopy => t.pc.Received? || t.pc.Handling? || t.pc.Acking? || t.pc.Failed? || t.pc.DeadLettering?
  }

  /** Whether a step does it for message `id`. */
  predicate Uses(cfg: Config, use: Use, id: nat, s: State, l: Step) {
    match l
    case Parse(j) => use.Invoke? && j < |s.tasks| && s.tasks[j].id == id && Starts(cfg, s, l, j, use.handler)
    case HandlerOk(j) => use.Invoke? && j < |s.tasks| && s.tasks[j].id == id && Starts(cfg, s, l, j, use.handler)
    case DlqPublish(j, stored, _) => use.StoreCopy? && j < |s.tasks| && s.tasks[j].id == id && stored
    case _ => false
  }

  predicate Starts(cfg: Config, s: State, l: Step, j: nat, handler: nat) {
    var t := Apply(cfg, s, l);
    Enabled(cfg, s, l) && j < |t.tasks| && t.tasks[j].pc.Handling? && t.tasks[j].done == handler
  }

  function MayWeight(use: Use, id: nat): Task -> nat {
    (t: Task) => if t.id == id && May(use, t) then 1 else 0
  }

  /** Deliveries of `id` still to come plus tasks that may still use theirs. */
  ghost function Quota(cfg: Config, s: State, use: Use, id: nat): int {
    cfg.maxDeliver - (if id < |s.delivered| then s.delivered[id] else 0) + Sum(MayWeight(use, id), s.tasks)
  }

  /** The messages with their delivery counts; empty unless the two sequences match. */
  ghost function Slots(s: State): seq<(Message, nat)> {
    if |s.delivered| == |s.log| then seq(|s.log|, i requires 0 <= i < |s.log| => (s.log[i], s.delivered[i])) else []
  }

  lemma TaskStepFrame(cfg: Config, s: State, l: Step, j: nat)
    requires Inv(cfg, s) && Enabled(cfg, s, l) && j < |s.tasks| && OnTask(l, j)
    ensures var t := Apply(cfg, s, l);
            && t.log == s.log && t.delivered == s.delivered && Slots(t) == Slots(s) && t.writers == s.writers
            && |t.tasks| == |s.tasks| && t.tasks == s.tasks[j := t.tasks[j]]
            && (if l.DlqPublish? && l.stored
                then |t.dlq| == |s.dlq| + 1 && t.dlq == s.dlq + [t.dlq[|s.dlq|]]
                    && t.dlqDelivered == s.dlqDelivered + [0]
                else t.dlq == s.dlq && t.dlqDelivered == s.dlqDelivered)
  {
  }

  lemma MayDrops(cfg: Config, s: State, l: Step, j: nat, use: Use)
    requires Inv(cfg, s) && Enabled(cfg, s, l) && j < |s.tasks| && OnTask(l, j)
    ensures May(use, Apply(cfg, s, l).tasks[j]) ==> May(use, s.tasks[j])
    ensures Uses(cfg, use, s.tasks[j].id, s, l) ==> May(use, s.tasks[j]) && !May(use, Apply(cfg, s, l).tasks[j])
    ensures Apply(cfg, s, l).tasks[j].id == s.tasks[j].id
    ensures forall id :: Uses(cfg, use, id, s, l) ==> id == s.tasks[j].id
  {
    assert TaskOk(cfg, s, j);
  }

  lemma QuotaTaskPays(cfg: Config, s: State, l: Step, j: nat, use: Use, id: nat)
    requires Inv(cfg, s) && Enabled(cfg, s, l) && j < |s.tasks| && OnTask(l, j)
    ensures Quota(cfg, Apply(cfg, s, l), use, id) + (if Uses(cfg, use, id, s, l) then 1
        else 0) <= Quota(cfg, s, use, id)
  {
    MayDrops(cfg, s, l, j, use);
    TaskStepFrame(cfg, s, l, j);
    SumUpdate(MayWeight(use, id), s.tasks, j, Apply(cfg, s, l).tasks[j]);
  }

  lemma OtherStepFrame(cfg: Config, s: State, l: Step)
    requires Inv(cfg, s) && Enabled(cfg, s, l) && !l.Deliver? && !IsTaskStep(l)
    ensures Apply(cfg, s, l).tasks == s.tasks
    ensures Apply(cfg, s, l).delivered == s.delivered + (if l.Accept? then [0] else [])
  {
  }

  lemma QuotaPays(cfg: Config, s: State, l: Step, use: Use, id: nat)
    requires Inv(cfg, s) && Enabled(cfg, s, l)
    ensures Quota(cfg, Apply(cfg, s, l), use, id) + (if Uses(cfg, use, id, s, l) then 1
        else 0) <= Quota(cfg, s, use, id)
  {
    if IsTaskStep(l) {
      QuotaTaskPays(cfg, s, l, l.task, use, id);
    } else if l.Deliver? {
      var t := Apply(cfg, s, l);
      SumAppend(MayWeight(use, id), s.tasks, t.tasks[|s.tasks|]);
    } else {
      OtherStepFrame(cfg, s, l);
      assert !Uses(cfg, use, id, s, l);
    }
  }

  /** One message yields at most `maxDeliver` runs of each handler and at most `maxDeliver` copies on
      the dead-letter stream, over any run. */
  lemma BoundedDuplication(cfg: Config, labels: seq<Step>, use: Use, id: nat)
    requires ValidConfig(cfg) && Valid(Pipeline(cfg), Empty(), labels)
    ensures Hits(Pipeline(cfg), Empty(), labels, (s, l) => Uses(cfg, use, id, s, l)) <= cfg.maxDeliver
  {
    forall s, l | Inv(cfg, s) && Enabled(cfg, s, l)
      ensures Inv(cfg, Apply(cfg, s, l))
      ensures Quota(cfg, Apply(cfg, s, l), use, id) + (if Uses(cfg, use, id, s, l) then 1
          else 0) <= Quota(cfg, s, use, id)
    {
      StepKeepsInv(cfg, s, l);
      QuotaPays(cfg, s, l, use, id);
    }
    BudgetPays(Pipeline(cfg), s => Inv(cfg, s), s => Quota(cfg, s, use, id), (s, l) => Uses(cfg, use, id, s, l),
        Empty(), labels);
    RunsKeepInv(cfg, Empty(), labels);
  }

  function PersistingWeight(c: nat): Writer -> nat {
    (x: Writer) => if x.copy == c && x.pc.Persisting? then 1 else 0
  }

  ghost function RowQuota(cfg: Config, s: State, c: nat): int {
    cfg.dlqMaxDeliver - (if c < |s.dlqDelivered| then s.dlqDelivered[c] else 0) + Sum(PersistingWeight(c), s.writers)
  }

  predicate InsertsRow(c: nat, s: State, l: Step) {
    l.Persist? && l.inserted && l.writer < |s.writers| && s.writers[l.writer].copy == c
  }

  predicate OnWriter(l: Step, w: nat) {
    match l
    case Persist(k, _, _) => k == w
    case AckCopy(k, _) => k == w
    case NakCopy(k) => k == w
    case CrashCopy(k) => k == w
    case _ => false
  }

  lemma RowQuotaPays(cfg: Config, s: State, l: Step, c: nat)
    requires Inv(cfg, s) && Enabled(cfg, s, l)
    ensures RowQuota(cfg, Apply(cfg, s, l), c) + (if InsertsRow(c, s, l) then 1 else 0) <= RowQuota(cfg, s, c)
  {
    var t := Apply(cfg, s, l);
    var weight := PersistingWeight(c);
    if l.DeliverCopy? {
      SumAppend(weight, s.writers, t.writers[|s.writers|]);
    } else if l.Persist? || l.AckCopy? || l.NakCopy? || l.CrashCopy? {
      var w := l.writer;
      assert t.writers == s.writers[w := t.writers[w]];
      SumUpdate(weight, s.writers, w, t.writers[w]);
    }
  }

  /** One dead letter yields at most `dlqMaxDeliver` table rows. */
  lemma BoundedRows(cfg: Config, labels: seq<Step>, c: nat)
    requires ValidConfig(cfg) && Valid(Pipeline(cfg), Empty(), labels)
    ensures Hits(Pipeline(cfg), Empty(), labels, (s, l) => InsertsRow(c, s, l)) <= cfg.dlqMaxDeliver
  {
    forall s, l | Inv(cfg, s) && Enabled(cfg, s, l)
      ensures Inv(cfg, Apply(cfg, s, l))
      ensures RowQuota(cfg, Apply(cfg, s, l), c) + (if InsertsRow(c, s, l) then 1 else 0) <= RowQuota(cfg, s, c)
    {
      StepKeepsInv(cfg, s, l);
      RowQuotaPays(cfg, s, l, c);
    }
    BudgetPays(Pipeline(cfg), s => Inv(cfg, s), s => RowQuota(cfg, s, c), (s, l) => InsertsRow(c, s, l), Empty(),
        labels);
    var s := Final(Pipeline(cfg), Empty(), labels);
    RunsKeepInv(cfg, Empty(), labels);
    assert c < |s.dlq| ==> CopyOk(cfg, s, c);
  }

  /** What is counted: deliveries only, or every step that is neither a publication nor an operator's
      resolution. */
  datatype Metric = Deliveries | AllSteps

  predicate Costs(metric: Metric, l: Step) {
    if metric.Deliveries? then l.Deliver? || l.DeliverCopy? else !l.Accept? && !l.Resolve?
  }

  function Inner(metric: Metric, steps: nat): nat {
    if metric.Deliveries? then 0 else steps
  }

  /** Cost of one delivery of a dead letter: persist, then ack or nak. */
  function WriterCost(metric: Metric): nat { 1 + Inner(metric, 2) }

  function CopyCost(cfg: Config, metric: Metric): nat { cfg.dlqMaxDeliver * WriterCost(metric) }

  /** Cost of one delivery of `m`: parse, handlers, ack, triage, publish, confirm, and its copy. */
  function TaskCost(cfg: Config, metric: Metric, m: Message): nat {
    1 + Inner(metric, Handlers(cfg, m) + 5) + CopyCost(cfg, metric)
  }

  function TaskRank(cfg: Config, metric: Metric, log: seq<Message>, t: Task): nat {
    var total := if t.id < |log| then Handlers(cfg, log[t.id]) else 0;
    match t.pc
    case Received => Inner(metric, total + 5) + CopyCost(cfg, metric)
    case Handling => Inner(metric, (if t.done < total then total - t.done else 0) + 4) + CopyCost(cfg, metric)
    case Acking => Inner(metric, 4) + CopyCost(cfg, metric)
    case Failed(_) => Inner(metric, 3) + CopyCost(cfg, metric)
    case DeadLettering(_, _) => Inner(metric, 2) + CopyCost(cfg, metric)
    case Confirming => Inner(metric, 1)
    case Naking => Inner(metric, 1)
    case Ended => 0
  }

  function WriterRank(metric: Metric, x: Writer): nat {
    match x.pc
    case Persisting => Inner(metric, 2)
    case AckingCopy => Inner(metric, 1)
    case NakingCopy => Inner(metric, 1)
    case WriterEnded => 0
  }

  /** What the deliveries a message has used up are worth. */
  function Spent(cfg: Config, metric: Metric, m: Message, delivered: nat): nat {
    delivered * TaskCost(cfg, metric, m)
  }

  function SpentWeight(cfg: Config, metric: Metric): ((Message, nat)) -> nat {
    (slot: (Message, nat)) => Spent(cfg, metric, slot.0, slot.1)
  }

  function TaskWeight(cfg: Config, metric: Metric, log: seq<Message>): Task -> nat {
    (t: Task) => TaskRank(cfg, metric, log, t)
  }

  function WriterWeight(metric: Metric): Writer -> nat {
    (x: Writer) => WriterRank(metric, x)
  }

  function CopySpentWeight(metric: Metric): nat -> nat {
    (d: nat) => d * WriterCost(metric)
  }

  function CopyWeight(cfg: Config, metric: Metric): Copy -> nat {
    (c: Copy) => CopyCost(cfg, metric)
  }

  /** Work in progress, plus what stored copies may still cost, minus what deliveries already used. */
  ghost function Balance(cfg: Config, metric: Metric, s: State): int {
    Sum(TaskWeight(cfg, metric, s.log), s.tasks) + Sum(WriterWeight(metric), s.writers)
    + Sum(CopyWeight(cfg, metric), s.dlq) - Sum(CopySpentWeight(metric), s.dlqDelivered)
    - Sum(SpentWeight(cfg, metric), Slots(s))
  }

  lemma TimesNext(d: nat, cost: nat)
    ensures (d + 1) * cost == d * cost + cost
  {
  }

  lemma TimesMonotone(d: nat, e: nat, cost: nat)
    requires d <= e
    ensures d * cost <= e * cost
  {
  }

  lemma AcceptPays(cfg: Config, metric: Metric, s: State, m: Message)
    requires Inv(cfg, s) && Enabled(cfg, s, Accept(m))
    ensures Balance(cfg, metric, Apply(cfg, s, Accept(m))) <= Balance(cfg, metric, s)
  {
    var t := Apply(cfg, s, Accept(m));
    assert Slots(t) == Slots(s) + [(m, 0)];
    SumAppend(SpentWeight(cfg, metric), Slots(s), (m, 0));
    forall j | 0 <= j < |s.tasks|
      ensures TaskWeight(cfg, metric, t.log)(s.tasks[j]) <= TaskWeight(cfg, metric, s.log)(s.tasks[j])
    {
      assert TaskOk(cfg, s, j);
    }
    SumAtMost(TaskWeight(cfg, metric, t.log), s.tasks, TaskWeight(cfg, metric, s.log), s.tasks);
  }

  lemma DeliverPays(cfg: Config, metric: Metric, s: State, id: nat, metadata: bool)
    requires Inv(cfg, s) && Enabled(cfg, s, Deliver(id, metadata))
    ensures Balance(cfg, metric, Apply(cfg, s, Deliver(id, metadata))) + 1 <= Balance(cfg, metric, s)
  {
    var t := Apply(cfg, s, Deliver(id, metadata));
    var m, d := s.log[id], s.delivered[id];
    assert Slots(t) == Slots(s)[id := (m, d + 1)];
    SumUpdate(SpentWeight(cfg, metric), Slots(s), id, (m, d + 1));
    TimesNext(d, TaskCost(cfg, metric, m));
    SumAppend(TaskWeight(cfg, metric, s.log), s.tasks, t.tasks[|s.tasks|]);
  }

  lemma RankDrops(cfg: Config, metric: Metric, s: State, l: Step, j: nat)
    requires Inv(cfg, s) && Enabled(cfg, s, l) && j < |s.tasks| && OnTask(l, j)
    ensures TaskRank(cfg, metric, s.log, Apply(cfg, s, l).tasks[j]) + Inner(metric, 1)
            + (if l.DlqPublish? && l.stored then CopyCost(cfg, metric) else 0)
            <= TaskRank(cfg, metric, s.log, s.tasks[j])
  {
    assert TaskOk(cfg, s, j);
  }

  lemma TaskPays(cfg: Config, metric: Metric, s: State, l: Step, j: nat)
    requires Inv(cfg, s) && Enabled(cfg, s, l) && j < |s.tasks| && OnTask(l, j)
    ensures Balance(cfg, metric, Apply(cfg, s, l)) + Inner(metric, 1) <= Balance(cfg, metric, s)
  {
    var t := Apply(cfg, s, l);
    RankDrops(cfg, metric, s, l, j);
    TaskStepFrame(cfg, s, l, j);
    SumUpdate(TaskWeight(cfg, metric, s.log), s.tasks, j, t.tasks[j]);
    if l.DlqPublish? && l.stored {
      SumAppend(CopyWeight(cfg, metric), s.dlq, t.dlq[|s.dlq|]);
      SumAppend(CopySpentWeight(metric), s.dlqDelivered, 0);
    }
  }

  lemma DeliverCopyPays(cfg: Config, metric: Metric, s: State, c: nat, metadata: bool)
    requires Inv(cfg, s) && Enabled(cfg, s, DeliverCopy(c, metadata))
    ensures Balance(cfg, metric, Apply(cfg, s, DeliverCopy(c, metadata))) + 1 <= Balance(cfg, metric, s)
  {
    var t := Apply(cfg, s, DeliverCopy(c, metadata));
    var d := s.dlqDelivered[c];
    assert Slots(t) == Slots(s);
    SumUpdate(CopySpentWeight(metric), s.dlqDelivered, c, d + 1);
    TimesNext(d, WriterCost(metric));
    SumAppend(WriterWeight(metric), s.writers, t.writers[|s.writers|]);
  }

  lemma WriterPays(cfg: Config, metric: Metric, s: State, l: Step, w: nat)
    requires Inv(cfg, s) && Enabled(cfg, s, l) && w < |s.writers| && OnWriter(l, w)
    ensures Balance(cfg, metric, Apply(cfg, s, l)) + Inner(metric, 1) <= Balance(cfg, metric, s)
  {
    var t := Apply(cfg, s, l);
    assert Slots(t) == Slots(s);
    assert t.writers == s.writers[w := t.writers[w]];
    SumUpdate(WriterWeight(metric), s.writers, w, t.writers[w]);
  }

  lemma StepPays(cfg: Config, metric: Metric, s: State, l: Step)
    requires Inv(cfg, s) && Enabled(cfg, s, l)
    ensures Balance(cfg, metric, Apply(cfg, s, l)) + (if Costs(metric, l) then 1 else 0) <= Balance(cfg, metric, s)
  {
    match l
    case Accept(m) => AcceptPays(cfg, metric, s, m);
    case Deliver(id, b) => DeliverPays(cfg, metric, s, id, b);
    case DeliverCopy(c, b) => DeliverCopyPays(cfg, metric, s, c, b);
    case Resolve(_) => assert Slots(Apply(cfg, s, l)) == Slots(s);
    case Persist(w, _, _) => WriterPays(cfg, metric, s, l, w);
    case AckCopy(w, _) => WriterPays(cfg, metric, s, l, w);
    case NakCopy(w) => WriterPays(cfg, metric, s, l, w);
    case CrashCopy(w) => WriterPays(cfg, metric, s, l, w);
    case _ => TaskPays(cfg, metric, s, l, l.task);
  }

  /** What accepting one message can cost over the whole run. */
  function Allowance(cfg: Config, metric: Metric): Message -> nat {
    (m: Message) => cfg.maxDeliver * TaskCost(cfg, metric, m)
  }

  lemma BalanceFloor(cfg: Config, metric: Metric, s: State)
    requires Inv(cfg, s)
    ensures 0 <= Balance(cfg, metric, s) + Sum(Allowance(cfg, metric), s.log)
  {
    forall i | 0 <= i < |s.log|
      ensures SpentWeight(cfg, metric)(Slots(s)[i]) <= Allowance(cfg, metric)(s.log[i])
    {
      TimesMonotone(s.delivered[i], cfg.maxDeliver, TaskCost(cfg, metric, s.log[i]));
    }
    SumAtMost(SpentWeight(cfg, metric), Slots(s), Allowance(cfg, metric), s.log);
    forall c | 0 <= c < |s.dlq|
      ensures CopySpentWeight(metric)(s.dlqDelivered[c]) <= CopyWeight(cfg, metric)(s.dlq[c])
    {
      assert CopyOk(cfg, s, c);
      TimesMonotone(s.dlqDelivered[c], cfg.dlqMaxDeliver, WriterCost(metric));
    }
    SumAtMost(CopySpentWeight(metric), s.dlqDelivered, CopyWeight(cfg, metric), s.dlq);
  }

  /** Every run is paid for by the messages published in it, whether one counts deliveries or all
      steps; so a run with no new publications stops. */
  lemma RunsArePaidFor(cfg: Config, metric: Metric, labels: seq<Step>)
    requires ValidConfig(cfg) && Valid(Pipeline(cfg), Empty(), labels)
    ensures Hits(Pipeline(cfg), Empty(), labels, (s, l) => Costs(metric, l)) <=
            Sum(Allowance(cfg, metric), Final(Pipeline(cfg), Empty(), labels).log)
  {
    forall s, l | Inv(cfg, s) && Enabled(cfg, s, l)
      ensures Inv(cfg, Apply(cfg, s, l))
      ensures Balance(cfg, metric, Apply(cfg, s, l)) + (if Costs(metric, l) then 1 else 0) <= Balance(cfg, metric, s)
    {
      StepKeepsInv(cfg, s, l);
      StepPays(cfg, metric, s, l);
    }
    BudgetPays(Pipeline(cfg), s => Inv(cfg, s), s => Balance(cfg, metric, s), (s, l) => Costs(metric, l), Empty(),
        labels);
    RunsKeepInv(cfg, Empty(), labels);
    BalanceFloor(cfg, metric, Final(Pipeline(cfg), Empty(), labels));
    assert Slots(Empty()) == [];
  }

  lemma {:induction false} ConstantSum(cfg: Config, log: seq<Message>)
    ensures Sum(Allowance(cfg, Deliveries), log) == |log| * (cfg.maxDeliver * (1 + cfg.dlqMaxDeliver))
  {
    if log != [] {
      ConstantSum(cfg, log[..|log| - 1]);
      TimesNext(|log| - 1, cfg.maxDeliver * (1 + cfg.dlqMaxDeliver));
    }
  }

  /** With limits M and D, a run that publishes n messages makes at most n * (M + M * D) deliveries. */
  lemma DeliveriesBounded(cfg: Config, labels: seq<Step>)
    requires ValidConfig(cfg) && Valid(Pipeline(cfg), Empty(), labels)
    ensures var n := |Final(Pipeline(cfg), Empty(), labels).log|;
            var m, d := cfg.maxDeliver, cfg.dlqMaxDeliver;
            Hits(Pipeline(cfg), Empty(), labels, (s, l) => Costs(Deliveries, l)) <= n * (m + m * d)
  {
    RunsArePaidFor(cfg, Deliveries, labels);
    ConstantSum(cfg, Final(Pipeline(cfg), Empty(), labels).log);
    var m, d := cfg.maxDeliver, cfg.dlqMaxDeliver;
    assert m * (1 + d) == m + m * d;
  }
}
