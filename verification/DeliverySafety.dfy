/** What every run of the delivery machine keeps. */
module DeliverySafety {
  import opened Delivery
  import opened Runs
  import opened Subjects
  import opened Wire

  /** Every handler of the message completed within one delivery. */
  ghost predicate HandledBy(cfg: Config, s: State, id: nat, j: nat)
    requires id < |s.log|
  {
    && j < |s.tasks| && s.tasks[j].id == id
    && Decodable(cfg, s.log[id]) && s.tasks[j].done == Handlers(cfg, s.log[id]) >= 1
  }

  /** Dead letter `c` holds the message's bytes unchanged and names its subject. */
  predicate IsCopyOf(cfg: Config, m: Message, c: Copy) {
    && c.data == m.data
    && c.headers.origin == Some(m.subject)
    && c.subject == DlqSubject(cfg.prefixes, m.subject)
  }

  ghost predicate Handled(cfg: Config, s: State, id: nat)
    requires id < |s.log|
  {
    exists j :: HandledBy(cfg, s, id, j)
  }

  /** Dead letter `c` is a copy of the message that a delivery of this very message stored. */
  ghost predicate CopiedBy(cfg: Config, s: State, id: nat, c: nat)
    requires id < |s.log|
  {
    && c < |s.dlq| && c < |s.dlqFrom| && s.dlqFrom[c] < |s.tasks|
    && s.tasks[s.dlqFrom[c]].id == id && s.tasks[s.dlqFrom[c]].copy == Some(c)
    && IsCopyOf(cfg, s.log[id], s.dlq[c])
  }

  ghost predicate Copied(cfg: Config, s: State, id: nat)
    requires id < |s.log|
  {
    exists c :: CopiedBy(cfg, s, id, c)
  }

  ghost predicate Shape(cfg: Config, s: State) {
    && |s.retained| == |s.delivered| == |s.log|
    && |s.dlqFrom| == |s.dlqDelivered| == |s.dlqAcked| == |s.dlq|
    && |s.rowFrom| == |s.rows|
  }

  ghost predicate TaskOk(cfg: Config, s: State, j: nat)
    requires Shape(cfg, s) && j < |s.tasks|
  {
    var t := s.tasks[j];
    && t.id < |s.log|
    && 1 <= t.number <= s.delivered[t.id] <= cfg.maxDeliver
    && s.log[t.id].subject in cfg.handlers
    && t.done <= Handlers(cfg, s.log[t.id])
    && (t.done > 0 || t.pc.Handling? || t.pc.Acking? || t.pc.Failed? ==> Decodable(cfg, s.log[t.id]))
    && (t.pc.Received? ==> t.done == 0)
    && (t.pc.Handling? ==> t.done < Handlers(cfg, s.log[t.id]))
    && (t.pc.Acking? ==> t.done == Handlers(cfg, s.log[t.id]))
    && (t.pc.DeadLettering? ==> t.pc.count == CopyCount(cfg, s, t))
    && (t.copy.Some? ==> t.copy.value < |s.dlq| && s.dlqFrom[t.copy.value] == j)
    && (t.pc.Received? || t.pc.Handling? || t.pc.Acking? || t.pc.Failed? || t.pc.DeadLettering? ==> t.copy.None?)
    && (t.pc.Confirming? ==> t.copy.Some?)
    && (t.pc.DeadLettering? || t.copy.Some? ==> Loadable(s.log[t.id].data))
  }

  /** The delivery count a dead letter carries: the limit for a message whose handlers failed, the
      delivery at hand (1 if unknown) for one that cannot be decoded. */
  function CopyCount(cfg: Config, s: State, t: Task): nat
    requires t.id < |s.log|
  {
    if Decodable(cfg, s.log[t.id]) then cfg.maxDeliver else NumDelivered(t.number, t.metadata, 1)
  }

  ghost predicate CopyOk(cfg: Config, s: State, c: nat)
    requires Shape(cfg, s) && c < |s.dlq|
  {
    var j := s.dlqFrom[c];
    && j < |s.tasks| && s.tasks[j].copy == Some(c) && s.tasks[j].id < |s.log|
    && IsCopyOf(cfg, s.log[s.tasks[j].id], s.dlq[c])
    && s.dlq[c].headers.count == Some(CopyCount(cfg, s, s.tasks[j]))
    && s.dlqDelivered[c] <= cfg.dlqMaxDeliver && Loadable(s.dlq[c].data)
  }

  ghost predicate WriterOk(cfg: Config, s: State, w: nat)
    requires Shape(cfg, s) && w < |s.writers|
  {
    var x := s.writers[w];
    && x.copy < |s.dlq|
    && 1 <= x.number <= s.dlqDelivered[x.copy]
    && (x.row.Some? ==> x.row.value < |s.rows| && s.rowFrom[x.row.value] == w)
    && (x.pc.Persisting? ==> x.row.None?)
    && (x.pc.AckingCopy? ==> x.row.Some?)
  }

  /** A row is what `_persist_dlq_message` builds from its dead letter; only `resolved` may differ. */
  ghost predicate RowOk(cfg: Config, s: State, r: nat)
    requires Shape(cfg, s) && r < |s.rows|
  {
    var w := s.rowFrom[r];
    && w < |s.writers| && s.writers[w].row == Some(r) && s.writers[w].copy < |s.dlq|
    && s.rows[r].(resolved := false) == RowFor(cfg, s.dlq[s.writers[w].copy])
    && Storable(s.rows[r])
  }

  ghost predicate Settled(cfg: Config, s: State, id: nat)
    requires Shape(cfg, s) && id < |s.log|
  {
    exists j :: 0 <= j < |s.tasks| && s.tasks[j].id == id &&
                (s.tasks[j].done == Handlers(cfg, s.log[id]) || s.tasks[j].copy.Some?)
  }

  ghost predicate Persisted(s: State, c: nat) {
    exists w :: 0 <= w < |s.writers| && s.writers[w].copy == c && s.writers[w].row.Some?
  }

  ghost predicate Inv(cfg: Config, s: State) {
    && Shape(cfg, s)
    && (forall id | 0 <= id < |s.log| :: s.delivered[id] <= cfg.maxDeliver)
    && (forall j | 0 <= j < |s.tasks| :: TaskOk(cfg, s, j))
    && (forall c | 0 <= c < |s.dlq| :: CopyOk(cfg, s, c))
    && (forall w | 0 <= w < |s.writers| :: WriterOk(cfg, s, w))
    && (forall r | 0 <= r < |s.rows| :: RowOk(cfg, s, r))
    && (forall id | 0 <= id < |s.log| :: s.retained[id] || Settled(cfg, s, id))
    && (forall c | 0 <= c < |s.dlq| && s.dlqAcked[c] :: Persisted(s, c))
  }

  /** Nothing that settles a message or persists a dead letter is ever taken back. */
  ghost predicate Grows(s: State, t: State) {
    GrowsStreams(s, t) && GrowsTasks(s, t) && GrowsWriters(s, t)
  }

  ghost predicate GrowsStreams(s: State, t: State) {
    && |s.log| <= |t.log| && t.log[..|s.log|] == s.log
    && |s.retained| <= |t.retained| && (forall i | 0 <= i < |s.retained| :: t.retained[i] ==> s.retained[i])
    && |s.dlq| <= |t.dlq| && t.dlq[..|s.dlq|] == s.dlq
    && |s.dlqAcked| <= |t.dlqAcked| && (forall c | 0 <= c < |s.dlqAcked| :: s.dlqAcked[c] ==> t.dlqAcked[c])
    && |s.rows| <= |t.rows| && (forall r | 0 <= r < |s.rows| :: s.rows[r].resolved ==> t.rows[r].resolved)
  }

  ghost predicate GrowsTasks(s: State, t: State) {
    && |s.tasks| <= |t.tasks|
    && (forall j | 0 <= j < |s.tasks| ::
          t.tasks[j].id == s.tasks[j].id && t.tasks[j].done >= s.tasks[j].done &&
          (s.tasks[j].copy.Some? ==> t.tasks[j].copy.Some?))
  }

  ghost predicate GrowsWriters(s: State, t: State) {
    && |s.writers| <= |t.writers|
    && (forall w | 0 <= w < |s.writers| ::
          t.writers[w].copy == s.writers[w].copy && (s.writers[w].row.Some? ==> t.writers[w].row.Some?))
  }

  lemma StepKeepsShape(cfg: Config, s: State, l: Step)
    requires Inv(cfg, s) && Enabled(cfg, s, l)
    ensures Shape(cfg, Apply(cfg, s, l))
    ensures forall id | 0 <= id < |Apply(cfg, s, l).log| :: Apply(cfg, s, l).delivered[id] <= cfg.maxDeliver
  {
  }

  lemma StepGrowsStreams(cfg: Config, s: State, l: Step)
    requires Inv(cfg, s) && Enabled(cfg, s, l)
    ensures GrowsStreams(s, Apply(cfg, s, l))
  {
  }

  lemma StepGrowsTasks(cfg: Config, s: State, l: Step)
    requires Inv(cfg, s) && Enabled(cfg, s, l)
    ensures GrowsTasks(s, Apply(cfg, s, l))
  {
    if IsTaskStep(l) {
      assert TaskOk(cfg, s, l.task);
    }
  }

  lemma StepGrowsWriters(cfg: Config, s: State, l: Step)
    requires Inv(cfg, s) && Enabled(cfg, s, l)
    ensures GrowsWriters(s, Apply(cfg, s, l))
  {
    if l.Persist? {
      assert WriterOk(cfg, s, l.writer);
    }
  }

  lemma StepGrows(cfg: Config, s: State, l: Step)
    requires Inv(cfg, s) && Enabled(cfg, s, l)
    ensures Grows(s, Apply(cfg, s, l))
  {
    StepGrowsStreams(cfg, s, l);
    StepGrowsTasks(cfg, s, l);
    StepGrowsWriters(cfg, s, l);
  }

  /** A task a step does not touch stays well formed. */
  lemma TaskFrame(cfg: Config, s: State, t: State, j: nat)
    requires Shape(cfg, s) && Shape(cfg, t) && j < |s.tasks| && j < |t.tasks| && TaskOk(cfg, s, j)
    requires t.tasks[j] == s.tasks[j]
    requires |s.log| <= |t.log| && forall id | 0 <= id < |s.log| :: t.log[id] == s.log[id]
    requires forall id | 0 <= id < |s.log| :: s.delivered[id] <= t.delivered[id] <= cfg.maxDeliver
    requires |s.dlq| <= |t.dlq| && forall c | 0 <= c < |s.dlq| :: t.dlqFrom[c] == s.dlqFrom[c]
    ensures TaskOk(cfg, t, j)
  {
  }

  predicate IsTaskStep(l: Step) {
    || l.Parse? || l.HandlerOk? || l.HandlerRaise? || l.Ack? || l.Triage? || l.DlqOffline?
    || l.DlqPublish? || l.Confirm? || l.Nak? || l.Crash?
  }

  predicate OnTask(l: Step, j: nat) {
    IsTaskStep(l) && l.task == j
  }

  lemma ActingTaskOk(cfg: Config, s: State, l: Step, j: nat)
    requires ValidConfig(cfg) && Inv(cfg, s) && Enabled(cfg, s, l) && Shape(cfg, Apply(cfg, s, l))
    requires j < |s.tasks| && OnTask(l, j)
    ensures TaskOk(cfg, Apply(cfg, s, l), j)
  {
    assert TaskOk(cfg, s, j);
    assert cfg.handlers[s.log[s.tasks[j].id].subject] >= 1;
    assert Apply(cfg, s, l).log == s.log && Apply(cfg, s, l).delivered == s.delivered;
  }

  lemma StepKeepsTask(cfg: Config, s: State, l: Step, j: nat)
    requires ValidConfig(cfg) && Inv(cfg, s) && Enabled(cfg, s, l) && Shape(cfg, Apply(cfg, s, l))
    requires forall id | 0 <= id < |Apply(cfg, s, l).log| :: Apply(cfg, s, l).delivered[id] <= cfg.maxDeliver
    requires j < |Apply(cfg, s, l).tasks|
    ensures TaskOk(cfg, Apply(cfg, s, l), j)
  {
    var t := Apply(cfg, s, l);
    if j < |s.tasks| {
      assert TaskOk(cfg, s, j);
      if OnTask(l, j) {
        ActingTaskOk(cfg, s, l, j);
      } else {
        assert t.tasks[j] == s.tasks[j];
        TaskFrame(cfg, s, t, j);
      }
    }
  }

  lemma StepKeepsCopy(cfg: Config, s: State, l: Step, c: nat)
    requires ValidConfig(cfg) && Inv(cfg, s) && Enabled(cfg, s, l) && Shape(cfg, Apply(cfg, s, l))
    requires c < |Apply(cfg, s, l).dlq|
    ensures CopyOk(cfg, Apply(cfg, s, l), c)
  {
    if c < |s.dlq| {
      assert CopyOk(cfg, s, c);
      assert TaskOk(cfg, s, s.dlqFrom[c]);
    } else {
      assert TaskOk(cfg, s, l.task);
    }
  }

  lemma StepKeepsWriter(cfg: Config, s: State, l: Step, w: nat)
    requires Inv(cfg, s) && Enabled(cfg, s, l) && Shape(cfg, Apply(cfg, s, l))
    requires w < |Apply(cfg, s, l).writers|
    ensures WriterOk(cfg, Apply(cfg, s, l), w)
  {
    assert w < |s.writers| ==> WriterOk(cfg, s, w);
  }

  lemma StepKeepsRow(cfg: Config, s: State, l: Step, r: nat)
    requires Inv(cfg, s) && Enabled(cfg, s, l) && Shape(cfg, Apply(cfg, s, l))
    requires r < |Apply(cfg, s, l).rows|
    ensures RowOk(cfg, Apply(cfg, s, l), r)
  {
    if r < |s.rows| {
      assert RowOk(cfg, s, r);
      assert WriterOk(cfg, s, s.rowFrom[r]);
    }
  }

  lemma StepKeepsSettled(cfg: Config, s: State, l: Step, id: nat)
    requires Inv(cfg, s) && Enabled(cfg, s, l)
    requires Shape(cfg, Apply(cfg, s, l)) && Grows(s, Apply(cfg, s, l)) && id < |Apply(cfg, s, l).log|
    requires forall j | 0 <= j < |Apply(cfg, s, l).tasks| :: TaskOk(cfg, Apply(cfg, s, l), j)
    ensures Apply(cfg, s, l).retained[id] || Settled(cfg, Apply(cfg, s, l), id)
  {
    var t := Apply(cfg, s, l);
    if id < |s.log| && !t.retained[id] {
      if s.retained[id] {
        var j := l.task;
        assert TaskOk(cfg, s, j);
        assert s.tasks[j].id == id && t.tasks[j].id == id;
      } else {
        var j :| 0 <= j < |s.tasks| && s.tasks[j].id == id &&
                 (s.tasks[j].done == Handlers(cfg, s.log[id]) || s.tasks[j].copy.Some?);
        assert TaskOk(cfg, t, j);
        assert t.tasks[j].done >= s.tasks[j].done;
      }
    }
  }

  lemma StepKeepsPersisted(cfg: Config, s: State, l: Step, c: nat)
    requires Inv(cfg, s) && Enabled(cfg, s, l)
    requires Shape(cfg, Apply(cfg, s, l)) && Grows(s, Apply(cfg, s, l))
    requires c < |Apply(cfg, s, l).dlq| && Apply(cfg, s, l).dlqAcked[c]
    ensures Persisted(Apply(cfg, s, l), c)
  {
    var t := Apply(cfg, s, l);
    if c < |s.dlq| && s.dlqAcked[c] {
      var w :| 0 <= w < |s.writers| && s.writers[w].copy == c && s.writers[w].row.Some?;
      assert t.writers[w].copy == c && t.writers[w].row.Some?;
    } else {
      var w := l.writer;
      assert WriterOk(cfg, s, w);
      assert t.writers[w].copy == c && t.writers[w].row.Some?;
    }
  }

  lemma StepKeepsInv(cfg: Config, s: State, l: Step)
    requires ValidConfig(cfg) && Inv(cfg, s) && Enabled(cfg, s, l)
    ensures Inv(cfg, Apply(cfg, s, l))
  {
    var t := Apply(cfg, s, l);
    StepKeepsShape(cfg, s, l);
    StepGrows(cfg, s, l);
    forall j | 0 <= j < |t.tasks| ensures TaskOk(cfg, t, j) { StepKeepsTask(cfg, s, l, j); }
    forall c | 0 <= c < |t.dlq| ensures CopyOk(cfg, t, c) { StepKeepsCopy(cfg, s, l, c); }
    forall w | 0 <= w < |t.writers| ensures WriterOk(cfg, t, w) { StepKeepsWriter(cfg, s, l, w); }
    forall r | 0 <= r < |t.rows| ensures RowOk(cfg, t, r) { StepKeepsRow(cfg, s, l, r); }
    forall id | 0 <= id < |t.log| ensures t.retained[id] || Settled(cfg, t, id) { StepKeepsSettled(cfg, s, l, id); }
    forall c | 0 <= c < |t.dlq| && t.dlqAcked[c] ensures Persisted(t, c) { StepKeepsPersisted(cfg, s, l, c); }
  }

  lemma RunsKeepInv(cfg: Config, s: State, labels: seq<Step>)
    requires ValidConfig(cfg) && Inv(cfg, s) && Valid(Pipeline(cfg), s, labels)
    ensures Inv(cfg, Final(Pipeline(cfg), s, labels))
  {
    forall t, l | Inv(cfg, t) && Enabled(cfg, t, l) ensures Inv(cfg, Apply(cfg, t, l)) {
      StepKeepsInv(cfg, t, l);
    }
    InvariantHolds(Pipeline(cfg), t => Inv(cfg, t), s, labels);
  }

  lemma RunsGrow(cfg: Config, s: State, labels: seq<Step>)
    requires ValidConfig(cfg) && Inv(cfg, s) && Valid(Pipeline(cfg), s, labels)
    ensures Grows(s, Final(Pipeline(cfg), s, labels))
  {
    forall t, l | Inv(cfg, t) && Enabled(cfg, t, l) ensures Inv(cfg, Apply(cfg, t, l)) && Grows(t, Apply(cfg, t, l)) {
      StepKeepsInv(cfg, t, l);
      StepGrows(cfg, t, l);
    }
    forall t, l | Inv(cfg, t) && Enabled(cfg, t, l) && Grows(s, t) ensures Grows(s, Apply(cfg, t, l)) {
      GrowsTrans(s, t, Apply(cfg, t, l));
    }
    RelationHolds(Pipeline(cfg), t => Inv(cfg, t), (a, b) => Grows(a, b), s, labels);
  }

  lemma GrowsTrans(s: State, t: State, u: State)
    requires Grows(s, t) && Grows(t, u)
    ensures Grows(s, u)
  {
    assert u.log[..|s.log|] == u.log[..|t.log|][..|s.log|];
    assert u.dlq[..|s.dlq|] == u.dlq[..|t.dlq|][..|s.dlq|];
  }

  ghost predicate Reachable(cfg: Config, s: State) {
    ValidConfig(cfg) && Reaches(Pipeline(cfg), Empty(), s)
  }

  lemma ReachableOk(cfg: Config, s: State)
    requires Reachable(cfg, s)
    ensures Inv(cfg, s)
  {
    var labels :| Valid(Pipeline(cfg), Empty(), labels) && Final(Pipeline(cfg), Empty(), labels) == s;
    RunsKeepInv(cfg, Empty(), labels);
  }

  lemma ReachableGrows(cfg: Config, s: State, t: State)
    requires Reachable(cfg, s) && Reaches(Pipeline(cfg), s, t)
    ensures Reachable(cfg, t) && Grows(s, t)
  {
    ReachableOk(cfg, s);
    var labels :| Valid(Pipeline(cfg), s, labels) && Final(Pipeline(cfg), s, labels) == t;
    RunsGrow(cfg, s, labels);
    ReachesTrans(Pipeline(cfg), Empty(), s, t);
  }

  /** No event is ever lost: in every reachable state, each message EVENTS accepted is still in the work
      queue, or all its handlers completed within one delivery, or the dead-letter stream holds its
      bytes unchanged under its origin subject, copied by one of its own deliveries. */
  lemma NoEventLost(cfg: Config, s: State, id: nat)
    requires Reachable(cfg, s) && id < |s.log|
    ensures Shape(cfg, s) && (s.retained[id] || Handled(cfg, s, id) || Copied(cfg, s, id))
  {
    ReachableOk(cfg, s);
    if !s.retained[id] {
      var j :| 0 <= j < |s.tasks| && s.tasks[j].id == id &&
               (s.tasks[j].done == Handlers(cfg, s.log[id]) || s.tasks[j].copy.Some?);
      assert TaskOk(cfg, s, j);
      assert cfg.handlers[s.log[id].subject] >= 1;
      if s.tasks[j].copy.Some? {
        assert CopyOk(cfg, s, s.tasks[j].copy.value);
        assert CopiedBy(cfg, s, id, s.tasks[j].copy.value);
      } else {
        assert HandledBy(cfg, s, id, j);
      }
    }
  }

  /** What a dead-letter row says about message `m`. */
  predicate Records(cfg: Config, m: Message, r: DeadRow) {
    && r.subject == m.subject
    && (match FromJson(m.data)
        case Success(e) => r.classPath == e.eventClass && r.payload == Decoded(e.payload)
        case Failure(_) => r.classPath == PyStr(UNPARSABLE) && r.payload == RawBase64(m.data))
    && (Decodable(cfg, m) ==> r.attempts == cfg.maxDeliver)
    && (!Decodable(cfg, m) ==> 1 <= r.attempts <= cfg.maxDeliver)
  }

  /** The message a dead-letter row was made from: its writer's dead letter's task's message. */
  ghost predicate MadeFrom(s: State, r: nat, id: nat) {
    && r < |s.rows| && r < |s.rowFrom| && s.rowFrom[r] < |s.writers|
    && var c := s.writers[s.rowFrom[r]].copy;
       && c < |s.dlq| && c < |s.dlqFrom| && s.dlqFrom[c] < |s.tasks|
       && s.tasks[s.dlqFrom[c]].id == id < |s.log|
  }

  /** Every dead-letter row traces back to an accepted message that was dead-lettered, and records its
      original subject, its decoded content or else its raw bytes, and the count it failed at. */
  lemma DeadRowsAreFaithful(cfg: Config, s: State, r: nat) returns (id: nat)
    requires Reachable(cfg, s) && r < |s.rows|
    ensures MadeFrom(s, r, id) && Copied(cfg, s, id) && Records(cfg, s.log[id], s.rows[r])
    ensures s.rows[r].subject == s.log[id].subject
  {
    ReachableOk(cfg, s);
    assert RowOk(cfg, s, r);
    var c := s.writers[s.rowFrom[r]].copy;
    assert CopyOk(cfg, s, c);
    id := s.tasks[s.dlqFrom[c]].id;
    assert TaskOk(cfg, s, s.dlqFrom[c]);
    assert CopiedBy(cfg, s, id, c);
    assert Captured(cfg.prefixes.events, s.log[id].subject);
  }

  /** A dead letter acked by the table writer is in the table; one whose class path or subject does
      not fit its column is never acked and stays in the stream only. */
  lemma AckedDeadLettersAreStored(cfg: Config, s: State, c: nat)
    requires Reachable(cfg, s) && c < |s.dlq|
    ensures Shape(cfg, s)
    ensures s.dlqAcked[c] ==>
              exists r :: 0 <= r < |s.rows| && s.rows[r].(resolved := false) == RowFor(cfg, s.dlq[c])
    ensures !Storable(RowFor(cfg, s.dlq[c])) ==> !s.dlqAcked[c]
  {
    ReachableOk(cfg, s);
    if s.dlqAcked[c] {
      var w :| 0 <= w < |s.writers| && s.writers[w].copy == c && s.writers[w].row.Some?;
      assert WriterOk(cfg, s, w);
      assert RowOk(cfg, s, s.writers[w].row.value);
    }
  }

  lemma Continue(cfg: Config, s: State, l: Step, t: State)
    requires Reaches(Pipeline(cfg), Empty(), s) && Enabled(cfg, s, l) && Apply(cfg, s, l) == t
    ensures Reaches(Pipeline(cfg), Empty(), t)
  {
    ReachesStep(Pipeline(cfg), Empty(), s, l);
  }
}
