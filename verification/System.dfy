/** Producer and consumer side together: what the outbox machine puts on EVENTS is what the delivery
    machine accepts. */
module System {
  import opened Delivery
  import opened DeliverySafety
  import opened Outbox
  import opened OutboxColumns
  import opened OutboxSafety
  import opened Runs
  import opened Subjects

  datatype Whole = Whole(outbox: World, delivery: State)

  datatype Action = Produce(move: Move) | Consume(step: Step)

  predicate Appends(w: World, v: World) {
    |v.log| == |w.log| + 1 && v.log[..|w.log|] == w.log
  }

  /** EVENTS stores only what its subject captures; nothing else gets into it. */
  predicate CanAct(cfg: Config, s: Whole, a: Action) {
    match a
    case Produce(m) =>
      && CanMove(cfg.prefixes, s.outbox, m)
      && var next := Do(cfg.prefixes, s.outbox, m);
         Appends(s.outbox, next) ==> Captured(cfg.prefixes.events, next.log[|s.outbox.log|].message.subject)
    case Consume(l) => !l.Accept? && Enabled(cfg, s.delivery, l)
  }

  function Act(cfg: Config, s: Whole, a: Action): Whole {
    match a
    case Produce(m) =>
      var next := Do(cfg.prefixes, s.outbox, m);
      Whole(next, if Appends(s.outbox, next) then Apply(cfg, s.delivery, Accept(next.log[|s.outbox.log|].message))
                  else s.delivery)
    case Consume(l) => s.(delivery := Apply(cfg, s.delivery, l))
  }

  ghost function Both(cfg: Config): Machine<Whole, Action> {
    Machine((s, a) => CanAct(cfg, s, a), (s, a) => Act(cfg, s, a))
  }

  function Start(): Whole {
    Whole(Nothing(), Empty())
  }

  lemma LogGrowsByOne(p: Prefixes, w: World, m: Move)
    requires CanMove(p, w, m)
    ensures Do(p, w, m).log == w.log || Appends(w, Do(p, w, m))
  {
  }

  predicate SameLogs(s: Whole) {
    && |s.outbox.log| == |s.delivery.log|
    && forall i | 0 <= i < |s.outbox.log| :: s.outbox.log[i].message == s.delivery.log[i]
  }

  ghost predicate Linked(cfg: Config, s: Whole) {
    Attainable(cfg.prefixes, s.outbox) && Reachable(cfg, s.delivery) && SameLogs(s)
  }

  lemma LogsStaySame(cfg: Config, s: Whole, a: Action)
    requires SameLogs(s) && CanAct(cfg, s, a)
    ensures SameLogs(Act(cfg, s, a))
  {
    match a
    case Produce(m) =>
      hide Do, CanMove;
      LogGrowsByOne(cfg.prefixes, s.outbox, m);
    case Consume(l) =>
      ConsumingKeepsLog(cfg, s.delivery, l);
  }

  lemma ConsumingKeepsLog(cfg: Config, s: State, l: Step)
    requires !l.Accept?
    ensures Apply(cfg, s, l).log == s.log
  {
  }

  lemma ActKeepsLinked(cfg: Config, s: Whole, a: Action)
    requires Linked(cfg, s) && CanAct(cfg, s, a)
    ensures Linked(cfg, Act(cfg, s, a))
  {
    hide Do, CanMove, Apply, Valid, Final, SameLogs;
    LogsStaySame(cfg, s, a);
    match a
    case Produce(m) =>
      ReachesStep(Producer(cfg.prefixes), Nothing(), s.outbox, m);
      var next := Do(cfg.prefixes, s.outbox, m);
      if Appends(s.outbox, next) {
        ReachesStep(Pipeline(cfg), Empty(), s.delivery, Accept(next.log[|s.outbox.log|].message));
      }
    case Consume(l) =>
      ReachesStep(Pipeline(cfg), Empty(), s.delivery, l);
  }

  ghost predicate Running(cfg: Config, s: Whole) {
    ValidConfig(cfg) && Reaches(Both(cfg), Start(), s)
  }

  lemma RunningIsLinked(cfg: Config, s: Whole)
    requires Running(cfg, s)
    ensures Linked(cfg, s)
  {
    hide CanAct, Act;
    forall t, a | Linked(cfg, t) && CanAct(cfg, t, a) ensures Linked(cfg, Act(cfg, t, a)) {
      ActKeepsLinked(cfg, t, a);
    }
    ReachesRefl(Producer(cfg.prefixes), Nothing());
    ReachesRefl(Pipeline(cfg), Empty());
    var actions :| Valid(Both(cfg), Start(), actions) && Final(Both(cfg), Start(), actions) == s;
    InvariantHolds(Both(cfg), t => Linked(cfg, t), Start(), actions);
  }

  /** Message `id` of EVENTS carries row `r`, and is in the work queue, handled or dead-lettered. */
  ghost predicate Accounted(cfg: Config, s: Whole, r: nat, id: nat) {
    && r < |s.outbox.db.rows| && id < |s.delivery.log| && id < |s.delivery.retained|
    && Carries(s.delivery.log[id], s.outbox.db.rows[r])
    && (s.delivery.retained[id] || Handled(cfg, s.delivery, id) || Copied(cfg, s.delivery, id))
  }

  /** End to end, over every interleaving of transactions, relays, consumers and dead-letter writers
      with their rollbacks, failures and crashes: the events of a transaction are in the outbox exactly
      when its business writes are in the database, and each of them is still pending there, or a
      message carrying it is retained, handled or dead-lettered. */
  lemma EventsReachTheirEnd(cfg: Config, s: Whole)
    requires Running(cfg, s)
    ensures forall u | 0 <= u < |s.outbox.units| :: Atomic(s.outbox, u)
    ensures forall r | 0 <= r < |s.outbox.db.rows| ::
              !s.outbox.db.rows[r].published || exists id :: Accounted(cfg, s, r, id)
  {
    hide Handled, Copied, KeysOf, WritesOf, Carries;
    RunningIsLinked(cfg, s);
    OutboxIsSafe(cfg.prefixes, s.outbox);
    forall r | 0 <= r < |s.outbox.db.rows| && s.outbox.db.rows[r].published
      ensures exists id :: Accounted(cfg, s, r, id)
    {
      var i :| 0 <= i < |s.outbox.log| && s.outbox.log[i].source == Wire.Some(r);
      NoEventLost(cfg, s.delivery, i);
      assert Accounted(cfg, s, r, i);
    }
  }

  /** EVENTS never rejects what a relay publishes: the subject of every row is captured, so the guard of
      `CanAct` bites for no move of units or relays. */
  lemma RelaysAreNeverRejected(cfg: Config, s: Whole, m: Move)
    requires Running(cfg, s) && CanMove(cfg.prefixes, s.outbox, m)
    ensures CanAct(cfg, s, Produce(m))
  {
    hide Do, CanMove, Running, Reachable;
    RunningIsLinked(cfg, s);
    AttainableFit(cfg.prefixes, s.outbox);
    PublishedSubjects(cfg.prefixes, s.outbox, m);
  }

  /** A dead letter of a relayed row always fits the dead-letter table. */
  lemma RelayedDeadLettersAreStorable(cfg: Config, s: Whole, c: nat)
    requires Running(cfg, s) && c < |s.delivery.dlq|
    ensures c < |s.delivery.dlqFrom| && s.delivery.dlqFrom[c] < |s.delivery.tasks|
    ensures var id := s.delivery.tasks[s.delivery.dlqFrom[c]].id;
            && id < |s.outbox.log|
            && (s.outbox.log[id].source.Some? ==> Storable(RowFor(cfg, s.delivery.dlq[c])))
  {
    hide Running, Reachable, KeysOf, WritesOf, RowFor, Storable, Attainable;
    RunningIsLinked(cfg, s);
    ReachableOk(cfg, s.delivery);
    assert CopyOk(cfg, s.delivery, c);
    var id := s.delivery.tasks[s.delivery.dlqFrom[c]].id;
    if s.outbox.log[id].source.Some? {
      AttainableSafe(cfg.prefixes, s.outbox);
      AttainableFit(cfg.prefixes, s.outbox);
      assert EntryOk(s.outbox, id);
      CarriedRowsAreStorable(cfg, s.delivery.log[id], s.outbox.db.rows[s.outbox.log[id].source.value],
          s.delivery.dlq[c]);
    }
  }

  lemma CarriedRowsAreStorable(cfg: Config, m: Message, r: Row, c: Copy)
    requires Carries(m, r) && Fits(cfg.prefixes, r) && IsCopyOf(cfg, m, c)
    ensures Storable(RowFor(cfg, c))
  {
    RowBytesAreToJson(r, m.data.spelling);
  }
}
