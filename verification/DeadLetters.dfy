/** Which dead letters can reach the table. */
module DeadLetters {
  import opened Delivery
  import opened DeliverySafety
  import opened Runs
  import opened Wire

  ghost predicate AckedIn(t: State, c: nat) {
    c < |t.dlqAcked| && t.dlqAcked[c]
  }

  ghost predicate CanBeAcked(cfg: Config, s: State, c: nat) {
    exists t :: Reaches(Pipeline(cfg), s, t) && AckedIn(t, c)
  }

  lemma Go(cfg: Config, s: State, t: State, l: Step)
    requires Reaches(Pipeline(cfg), s, t) && Enabled(cfg, t, l)
    ensures Reaches(Pipeline(cfg), s, Apply(cfg, t, l))
  {
    ReachesStep(Pipeline(cfg), s, t, l);
  }

  /** A storable dead letter with a delivery left is put in the table and acked by one undisturbed delivery. */
  lemma StorableIsPersisted(cfg: Config, s: State, c: nat) returns (t: State)
    requires Reachable(cfg, s) && c < |s.dlq| && Storable(RowFor(cfg, s.dlq[c]))
    requires c < |s.dlqAcked| && !s.dlqAcked[c] && c < |s.dlqDelivered| && s.dlqDelivered[c] < cfg.dlqMaxDeliver
    ensures Reaches(Pipeline(cfg), s, t) && AckedIn(t, c)
    ensures t.rows == s.rows + [RowFor(cfg, s.dlq[c])]
  {
    hide Valid, Final, RowFor;
    ReachableOk(cfg, s);
    assert CopyOk(cfg, s, c);
    ReachesRefl(Pipeline(cfg), s);
    var w := |s.writers|;
    Go(cfg, s, s, DeliverCopy(c, true));
    var delivered := Apply(cfg, s, DeliverCopy(c, true));
    Go(cfg, s, delivered, Persist(w, true, false));
    var persisted := Apply(cfg, delivered, Persist(w, true, false));
    Go(cfg, s, persisted, AckCopy(w, true));
    t := Apply(cfg, persisted, AckCopy(w, true));
  }

  lemma UnstorableIsNeverAcked(cfg: Config, s: State, t: State, c: nat)
    requires Reachable(cfg, s) && c < |s.dlq| && !Storable(RowFor(cfg, s.dlq[c])) && Reaches(Pipeline(cfg), s, t)
    ensures !AckedIn(t, c)
  {
    hide Valid, Final, RowFor, Storable;
    ReachableGrows(cfg, s, t);
    assert t.dlq[..|s.dlq|][c] == s.dlq[c];
    AckedDeadLettersAreStored(cfg, t, c);
  }

  /** In every reachable state, an unacked dead letter with a delivery left can still reach the table exactly
      when its class path is a string and fits its column, and its subject does. */
  lemma DeadLetterCanBeStored(cfg: Config, s: State, c: nat)
    requires Reachable(cfg, s) && c < |s.dlq|
    requires c < |s.dlqAcked| && !s.dlqAcked[c] && c < |s.dlqDelivered| && s.dlqDelivered[c] < cfg.dlqMaxDeliver
    ensures CanBeAcked(cfg, s, c) <==>
            var r := RowFor(cfg, s.dlq[c]);
            r.classPath.PyStr? && |r.classPath.text| <= 255 && |r.subject| <= 255
  {
    hide Reachable, RowFor, Reaches;
    if Storable(RowFor(cfg, s.dlq[c])) {
      var t := StorableIsPersisted(cfg, s, c);
    } else {
      forall t | Reaches(Pipeline(cfg), s, t) ensures !AckedIn(t, c) {
        UnstorableIsNeverAcked(cfg, s, t, c);
      }
    }
  }

  lemma UndecodableIsParsed(cfg: Config, m: Message) returns (s: State)
    requires ValidConfig(cfg) && m.subject in cfg.handlers && !Decodable(cfg, m) && Loadable(m.data)
    ensures Reachable(cfg, s)
    ensures s == State([m], [true], [1], [Task(0, 1, true, 0, DeadLettering("EventSerializationError", 1), None)],
                       [], [], [], [], [], [], [])
  {
    hide Valid, Final, Decodable;
    ReachesRefl(Pipeline(cfg), Empty());
    var accepted := State([m], [true], [0], [], [], [], [], [], [], [], []);
    var t := Task(0, 1, true, 0, Received, None);
    var delivered := accepted.(delivered := [1], tasks := [t]);
    s := delivered.(tasks := [t.(pc := DeadLettering("EventSerializationError", 1))]);
    Continue(cfg, Empty(), Accept(m), accepted);
    Continue(cfg, accepted, Deliver(0, true), delivered);
    Continue(cfg, delivered, Parse(0), s);
  }

  lemma UndecodableIsCopied(cfg: Config, m: Message) returns (s: State)
    requires ValidConfig(cfg) && m.subject in cfg.handlers && !Decodable(cfg, m) && Loadable(m.data)
    ensures Reachable(cfg, s) && s.log == [m]
    ensures |s.dlq| == 1 && s.dlq[0].data == m.data && Copied(cfg, s, 0)
  {
    hide Valid, Final, Decodable;
    var parsed := UndecodableIsParsed(cfg, m);
    s := Apply(cfg, parsed, DlqPublish(0, true, false));
    Continue(cfg, parsed, DlqPublish(0, true, false), s);
    assert CopiedBy(cfg, s, 0, 0);
  }

  function NumberedClass(n: int, spelling: nat): Bytes {
    Text(JObj(map["event_class" := JInt(n)]), spelling)
  }

  lemma NumberIsNotAClass(cfg: Config, subject: string, n: int, spelling: nat, c: Copy)
    requires c.data == NumberedClass(n, spelling)
    ensures !Decodable(cfg, Message(subject, c.data)) && Loadable(c.data) && !Storable(RowFor(cfg, c))
  {
    assert FromJson(c.data).value.eventClass == PyInt(n);
  }

  /** It does happen that it cannot: a message whose class path is a number is dead-lettered, and stays in the
      stream only. */
  lemma NumberIsNeverStored(cfg: Config, subject: string, n: int, spelling: nat) returns (s: State)
    requires ValidConfig(cfg) && subject in cfg.handlers
    ensures Reachable(cfg, s) && s.log == [Message(subject, NumberedClass(n, spelling))]
    ensures |s.dlq| == 1 && Copied(cfg, s, 0) && !Storable(RowFor(cfg, s.dlq[0])) && !CanBeAcked(cfg, s, 0)
  {
    hide Reachable, Copied, RowFor, Storable, Reaches, NumberedClass, Decodable;
    var data := NumberedClass(n, spelling);
    NumberIsNotAClass(cfg, subject, n, spelling, Copy("", data, Headers(None, None, None)));
    s := UndecodableIsCopied(cfg, Message(subject, data));
    NumberIsNotAClass(cfg, subject, n, spelling, s.dlq[0]);
    forall u | Reaches(Pipeline(cfg), s, u) ensures !AckedIn(u, 0) {
      UnstorableIsNeverAcked(cfg, s, u, 0);
    }
  }
}
