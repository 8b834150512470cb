/** What dead letters and their table rows say about why and where a delivery failed. */
module Failures {
  import opened Delivery
  import opened DeliverySafety
  import opened Runs
  import opened Subjects
  import opened Wire

  /** The row of any dead letter, also of one that lacks headers: the origin header or else the subject mapped
      back, the error header or else a fixed text, the count header or else the limit. */
  lemma RowSays(cfg: Config, c: Copy, origin: string)
    requires c.subject == DlqSubject(cfg.prefixes, origin) && Captured(cfg.prefixes.events, origin)
    ensures var r := RowFor(cfg, c);
            && !r.resolved
            && (match FromJson(c.data)
                case Success(e) => r.classPath == e.eventClass && r.payload == Decoded(e.payload)
                case Failure(_) => r.classPath == PyStr("<unparsable>") && r.payload == RawBase64(c.data))
            && (c.headers.origin.Some? && c.headers.origin.value != "" ==> r.subject == c.headers.origin.value)
            && (c.headers.origin.None? || c.headers.origin.value == "" ==> r.subject == origin)
            && (c.headers.error.Some? && c.headers.error.value != "" ==> r.error == c.headers.error.value)
            && (c.headers.error.None? || c.headers.error.value == "" ==> r.error == "Exceeded max delivery attempts")
            && (c.headers.count.Some? ==> r.attempts == c.headers.count.value)
            && (c.headers.count.None? ==> r.attempts == cfg.maxDeliver)
  {
    SubjectMappingsInverse(cfg.prefixes, origin);
  }

  /** The error task `j` raises with in a step, from a handler or its ack. */
  function RaisedIn(l: Step, j: nat): seq<string> {
    match l
    case HandlerRaise(k, error) => if k == j then [error] else []
    case Ack(k, _, raised, error) => if k == j && raised then [error] else []
    case _ => []
  }

  /** The errors task `j` raised with over a run. */
  function RaisedBy(steps: seq<Step>, j: nat): seq<string> {
    if steps == [] then [] else RaisedBy(steps[..|steps| - 1], j) + RaisedIn(steps[|steps| - 1], j)
  }

  /** `error` is why a delivery that raised `errors` failed: the one error it raised, or that of the parser. */
  predicate Explains(cfg: Config, m: Message, errors: seq<string>, error: string) {
    if Decodable(cfg, m) then errors == [error] else errors == [] && error == "EventSerializationError"
  }

  ghost predicate TaskExplained(cfg: Config, s: State, errors: seq<string>, j: nat)
    requires j < |s.tasks|
  {
    var t := s.tasks[j];
    && t.id < |s.log|
    && (t.pc.Received? || t.pc.Handling? || t.pc.Acking? ==> errors == [])
    && (t.pc.Failed? ==> errors == [t.pc.error])
    && (t.pc.DeadLettering? ==> Explains(cfg, s.log[t.id], errors, t.pc.error))
    && (t.copy.Some? ==> CopyExplained(cfg, s, errors, s.log[t.id], t.copy.value))
  }

  predicate CopyExplained(cfg: Config, s: State, errors: seq<string>, m: Message, c: nat) {
    c < |s.dlq| && s.dlq[c].headers.error.Some? && Explains(cfg, m, errors, s.dlq[c].headers.error.value)
  }

  lemma OwnStepExplains(cfg: Config, s: State, l: Step, errors: seq<string>, j: nat)
    requires Inv(cfg, s) && Enabled(cfg, s, l) && OnTask(l, j) && j < |s.tasks| && TaskExplained(cfg, s, errors, j)
    ensures j < |Apply(cfg, s, l).tasks| && TaskExplained(cfg, Apply(cfg, s, l), errors + RaisedIn(l, j), j)
  {
    hide Decodable, Storable, RowFor, CopyOk, WriterOk, RowOk, Settled, Persisted, Captured;
    assert TaskOk(cfg, s, j);
  }

  lemma OtherStepExplains(cfg: Config, s: State, l: Step, errors: seq<string>, j: nat)
    requires Enabled(cfg, s, l) && !OnTask(l, j) && j < |s.tasks| && TaskExplained(cfg, s, errors, j)
    ensures j < |Apply(cfg, s, l).tasks| && TaskExplained(cfg, Apply(cfg, s, l), errors, j) && RaisedIn(l, j) == []
  {
    hide Decodable, Storable, RowFor, Captured, ParsedPc, TriagePc, DeadLetter;
    var t := Apply(cfg, s, l);
    assert t.tasks[j] == s.tasks[j] && |s.dlq| <= |t.dlq| && t.dlq[..|s.dlq|] == s.dlq;
    assert |s.log| <= |t.log| && t.log[..|s.log|] == s.log;
  }

  lemma NewTaskExplained(cfg: Config, s: State, l: Step, j: nat)
    requires Shape(cfg, s) && Enabled(cfg, s, l) && j >= |s.tasks|
    ensures RaisedIn(l, j) == [] && (j < |Apply(cfg, s, l).tasks| ==> TaskExplained(cfg, Apply(cfg, s, l), [], j))
  {
    hide Decodable, Storable, RowFor, Captured, ParsedPc, TriagePc, DeadLetter;
  }

  /** Over every run a task raises at most one error, and its dead letter carries it. */
  lemma {:induction false} TasksExplained(cfg: Config, steps: seq<Step>, j: nat)
    requires ValidConfig(cfg) && Valid(Pipeline(cfg), Empty(), steps)
    ensures var s := Final(Pipeline(cfg), Empty(), steps);
            if j < |s.tasks| then TaskExplained(cfg, s, RaisedBy(steps, j), j) else RaisedBy(steps, j) == []
  {
    hide Inv, Enabled, Apply, TaskExplained, RaisedIn, OnTask, Shape;
    if steps != [] {
      var front, l := steps[..|steps| - 1], steps[|steps| - 1];
      var s := Final(Pipeline(cfg), Empty(), front);
      TasksExplained(cfg, front, j);
      RunsKeepInv(cfg, Empty(), front) by { EmptyOk(cfg); }
      InvShape(cfg, s);
      if j >= |s.tasks| {
        NewTaskExplained(cfg, s, l, j);
      } else if OnTask(l, j) {
        OwnStepExplains(cfg, s, l, RaisedBy(front, j), j);
      } else {
        OtherStepExplains(cfg, s, l, RaisedBy(front, j), j);
      }
      assert RaisedBy(front, j) + [] == RaisedBy(front, j);
    }
  }

  lemma EmptyOk(cfg: Config)
    ensures Inv(cfg, Empty())
  {
  }

  lemma InvShape(cfg: Config, s: State)
    requires Inv(cfg, s)
    ensures Shape(cfg, s)
  {
  }

  /** Over every run: a dead letter carries the one error its own delivery raised with, from a handler or the
      ack, or the parser's for an undecodable message, which raised none; and a table row says the same, or a
      fixed text for an empty error. */
  lemma CausesReachTheTable(cfg: Config, steps: seq<Step>)
    requires ValidConfig(cfg) && Valid(Pipeline(cfg), Empty(), steps)
    ensures var s := Final(Pipeline(cfg), Empty(), steps);
            && (forall c | 0 <= c < |s.dlq| ::
                  && c < |s.dlqFrom| && s.dlqFrom[c] < |s.tasks| && s.tasks[s.dlqFrom[c]].id < |s.log|
                  && CopyExplained(cfg, s, RaisedBy(steps, s.dlqFrom[c]), s.log[s.tasks[s.dlqFrom[c]].id], c))
            && (forall r | 0 <= r < |s.rows| ::
                  && r < |s.rowFrom| && s.rowFrom[r] < |s.writers| && s.writers[s.rowFrom[r]].copy < |s.dlq|
                  && var e := s.dlq[s.writers[s.rowFrom[r]].copy].headers.error;
                     && e.Some?
                     && s.rows[r].error == if e.value == "" then "Exceeded max delivery attempts" else e.value)
  {
    hide Enabled, Apply, Valid, Final, RaisedBy, Decodable;
    var s := Final(Pipeline(cfg), Empty(), steps);
    RunsKeepInv(cfg, Empty(), steps);
    forall c | 0 <= c < |s.dlq|
      ensures c < |s.dlqFrom| && s.dlqFrom[c] < |s.tasks| && s.tasks[s.dlqFrom[c]].id < |s.log|
      ensures CopyExplained(cfg, s, RaisedBy(steps, s.dlqFrom[c]), s.log[s.tasks[s.dlqFrom[c]].id], c)
    {
      assert CopyOk(cfg, s, c);
      TasksExplained(cfg, steps, s.dlqFrom[c]);
    }
    forall r | 0 <= r < |s.rows|
      ensures r < |s.rowFrom| && s.rowFrom[r] < |s.writers| && s.writers[s.rowFrom[r]].copy < |s.dlq|
      ensures var e := s.dlq[s.writers[s.rowFrom[r]].copy].headers.error;
              e.Some? && s.rows[r].error == if e.value == "" then "Exceeded max delivery attempts" else e.value
    {
      assert RowOk(cfg, s, r);
      var c := s.writers[s.rowFrom[r]].copy;
      assert CopyExplained(cfg, s, RaisedBy(steps, s.dlqFrom[c]), s.log[s.tasks[s.dlqFrom[c]].id], c);
    }
  }
}
