/** `NatsEventBus` as a consumer: `_handle_message`, `_handle_delivery_failure`, `_route_poison_message`
    and `_dead_letter`. Each await may let every other task of the pipeline run. */
module Consumer {
  import opened Delivery
  import opened DeliverySafety
  import opened Runs
  import opened Subjects
  import opened Wire

  /** What the awaits of one call come to: which handlers succeed, whether an ack or publish raises
      and whether the server applied it all the same. */
  datatype Env = Env(
    connected: bool, handlers: seq<bool>, error: string,
    ackApplied: bool, ackRaised: bool,
    copyStored: bool, copyRaised: bool,
    confirmApplied: bool, confirmRaised: bool, nakRaised: bool)

  /** What one call did. `escaped` says that an exception left it, which ends the consumer loop. */
  datatype Verdict = Verdict(handlersRun: nat, copy: Option<Copy>, released: bool, escaped: bool)

  predicate Possible(env: Env) {
    env.copyStored || env.copyRaised
  }

  /** The number of handlers that complete before the first one that raises. */
  function Completed(outcomes: seq<bool>, total: nat): (k: nat)
    requires total <= |outcomes|
    ensures k <= total && (forall i | 0 <= i < k :: outcomes[i]) && (k < total ==> !outcomes[k])
  {
    CompletedFrom(outcomes, total, 0)
  }

  function CompletedFrom(outcomes: seq<bool>, total: nat, k: nat): (r: nat)
    requires k <= total <= |outcomes|
    ensures k <= r <= total && (forall i | k <= i < r :: outcomes[i]) && (r < total ==> !outcomes[r])
    decreases total - k
  {
    if k < total && outcomes[k] then CompletedFrom(outcomes, total, k + 1) else k
  }

  lemma CompletedIs(outcomes: seq<bool>, total: nat, k: nat)
    requires k <= total <= |outcomes| && (forall i | 0 <= i < k :: outcomes[i]) && (k < total ==> !outcomes[k])
    ensures Completed(outcomes, total) == k
  {
  }

  function DeadLetterVerdict(
    cfg: Config, m: Message, env: Env, error: string, count: nat, done: nat, released: bool): Verdict
  {
    var copy := DeadLetter(cfg, m, error, count);
    if !env.connected then Verdict(done, None, released, env.nakRaised)
    else if env.copyRaised then Verdict(done, if env.copyStored then Some(copy) else None, released, env.nakRaised)
    else Verdict(done, Some(copy), released || env.confirmApplied, env.confirmRaised)
  }

  function FailureVerdict(
    cfg: Config, m: Message, number: nat, metadata: bool, env: Env, done: nat, released: bool): Verdict
  {
    var count := NumDelivered(number, metadata, cfg.maxDeliver);
    if count < cfg.maxDeliver then Verdict(done, None, released, env.nakRaised)
    else DeadLetterVerdict(cfg, m, env, env.error, count, done, released)
  }

  lemma FailureRuns(cfg: Config, m: Message, number: nat, metadata: bool, env: Env, done: nat, released: bool)
    ensures FailureVerdict(cfg, m, number, metadata, env, done, released).handlersRun == done
  {
  }

  /** What `_handle_message` comes to for delivery `number` of `m`. */
  function Handle(cfg: Config, m: Message, number: nat, metadata: bool, env: Env): Verdict
    requires Handlers(cfg, m) <= |env.handlers|
  {
    if !Loadable(m.data) then Verdict(0, None, false, true)
    else if !Decodable(cfg, m) then
      DeadLetterVerdict(cfg, m, env, "EventSerializationError", NumDelivered(number, metadata, 1), 0, false)
    else
      var total := Handlers(cfg, m);
      var done := Completed(env.handlers, total);
      if done < total then FailureVerdict(cfg, m, number, metadata, env, done, false)
      else if env.ackRaised then FailureVerdict(cfg, m, number, metadata, env, done, env.ackApplied)
      else Verdict(done, None, env.ackApplied, false)
  }

  /** A dead letter of `m`, written out. */
  predicate IsDeadLetter(cfg: Config, m: Message, c: Copy, error: string, count: nat) {
    && c.subject == DlqSubject(cfg.prefixes, m.subject) && c.data == m.data
    && c.headers.error == Some(error) && c.headers.origin == Some(m.subject) && c.headers.count == Some(count)
  }

  /** The call is due to dead-letter: its message does not decode, or its handlers or its ack failed at the last
      delivery or one whose number cannot be read. */
  predicate DeadLetters(cfg: Config, m: Message, number: nat, metadata: bool, env: Env, failed: bool) {
    && Loadable(m.data)
    && (Decodable(cfg, m) ==> (failed || env.ackRaised) && (!metadata || number >= cfg.maxDeliver))
  }

  /** When a call stores a copy and which, when it releases its message, and when an exception leaves it; `failed`
      says that a handler raises. */
  predicate Decides(cfg: Config, m: Message, number: nat, metadata: bool, env: Env, failed: bool, v: Verdict) {
    var dead := DeadLetters(cfg, m, number, metadata, env, failed);
    && (v.copy.Some? <==> dead && env.connected && env.copyStored)
    && (v.copy.Some? && Decodable(cfg, m) ==>
          IsDeadLetter(cfg, m, v.copy.value, env.error, if metadata then number else cfg.maxDeliver))
    && (v.copy.Some? && !Decodable(cfg, m) ==>
          IsDeadLetter(cfg, m, v.copy.value, "EventSerializationError", if metadata then number else 1))
    && (v.released <==>
        || (Decodable(cfg, m) && !failed && env.ackApplied)
        || (dead && env.connected && !env.copyRaised && env.confirmApplied))
    && (v.escaped <==>
        || !Loadable(m.data)
        || (dead && env.connected && !env.copyRaised && env.confirmRaised)
        || (dead && (!env.connected || env.copyRaised) && env.nakRaised)
        || (Decodable(cfg, m) && (failed || env.ackRaised) && !dead && env.nakRaised))
  }

  predicate SomeFail(outcomes: seq<bool>, total: nat)
    requires total <= |outcomes|
  {
    exists i | 0 <= i < total :: !outcomes[i]
  }

  /** Of a message that does not decode no handler runs, else those before the first that fails. */
  predicate RunsHandlers(cfg: Config, m: Message, outcomes: seq<bool>, run: nat)
    requires Handlers(cfg, m) <= |outcomes|
  {
    if !Decodable(cfg, m) then run == 0
    else
      && run <= Handlers(cfg, m) && (forall i | 0 <= i < run :: outcomes[i])
      && (run < Handlers(cfg, m) ==> !outcomes[run])
  }

  lemma DeadLetterDecides(
    cfg: Config, m: Message, env: Env, error: string, count: nat, done: nat, released: bool)
    requires Possible(env)
    ensures var v := DeadLetterVerdict(cfg, m, env, error, count, done, released);
            && v.handlersRun == done && (v.copy.Some? <==> env.connected && env.copyStored)
            && (v.copy.Some? ==> IsDeadLetter(cfg, m, v.copy.value, error, count))
            && (v.released <==> released || (env.connected && !env.copyRaised && env.confirmApplied))
            && (v.escaped <==> if env.connected && !env.copyRaised then env.confirmRaised else env.nakRaised)
  {
  }

  lemma FailureDecides(cfg: Config, m: Message, number: nat, metadata: bool, env: Env, done: nat, released: bool)
    requires Possible(env)
    ensures var v := FailureVerdict(cfg, m, number, metadata, env, done, released);
            var dead := !metadata || number >= cfg.maxDeliver;
            && v.handlersRun == done && (v.copy.Some? <==> dead && env.connected && env.copyStored)
            && (v.copy.Some? ==>
                  IsDeadLetter(cfg, m, v.copy.value, env.error, if metadata then number else cfg.maxDeliver))
            && (v.released <==> released || (dead && env.connected && !env.copyRaised && env.confirmApplied))
            && (v.escaped <==> if dead && env.connected && !env.copyRaised then env.confirmRaised else env.nakRaised)
  {
    hide DeadLetterVerdict, IsDeadLetter;
    DeadLetterDecides(cfg, m, env, env.error, NumDelivered(number, metadata, cfg.maxDeliver), done, released);
  }

  /** What `_handle_message` does in every case, in terms of what its awaits come to. */
  lemma HandleDecides(cfg: Config, m: Message, number: nat, metadata: bool, env: Env)
    requires Handlers(cfg, m) <= |env.handlers| && Possible(env)
    ensures var v := Handle(cfg, m, number, metadata, env);
            && Decides(cfg, m, number, metadata, env, SomeFail(env.handlers, Handlers(cfg, m)), v)
            && RunsHandlers(cfg, m, env.handlers, v.handlersRun)
  {
    hide DeadLetterVerdict, FailureVerdict, IsDeadLetter, Decodable, Completed, Loadable;
    if Decodable(cfg, m) {
      DecodableLoads(cfg, m);
      var done := Completed(env.handlers, Handlers(cfg, m));
      FailureDecides(cfg, m, number, metadata, env, done, false);
      FailureDecides(cfg, m, number, metadata, env, done, env.ackApplied);
    } else {
      DeadLetterDecides(cfg, m, env, "EventSerializationError", NumDelivered(number, metadata, 1), 0, false);
    }
  }

  lemma DecodableLoads(cfg: Config, m: Message)
    requires Decodable(cfg, m)
    ensures Loadable(m.data)
  {
  }

  /** Task `j` of a reachable pipeline is at `t`, handling `m`. */
  ghost predicate Serving(cfg: Config, s: State, j: nat, t: Task, m: Message) {
    && Reachable(cfg, s)
    && j < |s.tasks| && s.tasks[j] == t && t.id < |s.log| && s.log[t.id] == m && t.id < |s.retained|
  }

  /** `released` and `copy` are true of the streams: the message left the queue, and `copy` is the dead
      letter the task stored. */
  ghost predicate Shows(s: State, t: Task, released: bool, copy: Option<Copy>) {
    && (released ==> t.id < |s.retained| && !s.retained[t.id])
    && (match copy
        case None => t.copy.None?
        case Some(c) => t.copy.Some? && t.copy.value < |s.dlq| && s.dlq[t.copy.value] == c)
  }

  lemma ShownStays(cfg: Config, s: State, next: State, j: nat, t: Task, m: Message, released: bool, copy: Option<Copy>)
    requires Serving(cfg, s, j, t, m) && Reaches(Pipeline(cfg), s, next)
    requires j < |next.tasks| && next.tasks[j] == t
    ensures Serving(cfg, next, j, t, m)
    ensures Shows(s, t, released, copy) ==> Shows(next, t, released, copy)
  {
    ReachableGrows(cfg, s, next);
    assert next.log[..|s.log|][t.id] == m;
    assert copy.Some? && Shows(s, t, released, copy) ==> next.dlq[..|s.dlq|][t.copy.value] == copy.value;
  }

  /** A step of task `j` itself. */
  lemma OwnStep(cfg: Config, s: State, l: Step, j: nat, t: Task, m: Message)
    requires Serving(cfg, s, j, t, m) && Enabled(cfg, s, l) && OnTask(l, j)
    ensures Reaches(Pipeline(cfg), s, Apply(cfg, s, l)) && Reachable(cfg, Apply(cfg, s, l))
    ensures Grows(s, Apply(cfg, s, l)) && |Apply(cfg, s, l).retained| == |s.retained|
  {
    ReachesRefl(Pipeline(cfg), s);
    ReachesStep(Pipeline(cfg), s, s, l);
    ReachableGrows(cfg, s, Apply(cfg, s, l));
  }

  /** `s` after task `j` got to `t`, released its message or not, and stored `copy`, and nothing else happened. */
  function Effect(s: State, j: nat, t: Task, released: bool, copy: Option<Copy>): State
    requires j < |s.tasks| && t.id < |s.retained|
  {
    var next := s.(tasks := s.tasks[j := t],
                   retained := if released then s.retained[t.id := false] else s.retained);
    match copy
    case None => next
    case Some(c) =>
      next.(dlq := s.dlq + [c], dlqFrom := s.dlqFrom + [j], dlqDelivered := s.dlqDelivered + [0],
            dlqAcked := s.dlqAcked + [false])
  }

  function Either(copy: Option<Copy>, other: Option<Copy>): Option<Copy> {
    if copy.Some? then copy else other
  }

  lemma EffectThen(s: State, j: nat, t: Task, released: bool, copy: Option<Copy>, after: Task, applied: bool,
      stored: Option<Copy>)
    requires j < |s.tasks| && t.id == after.id < |s.retained| && (copy.None? || stored.None?)
    ensures Effect(Effect(s, j, t, released, copy), j, after, applied, stored) ==
            Effect(s, j, after, released || applied, Either(copy, stored))
  {
  }

  /** The message and the dead letter a task shows stay true of the streams over its own step. */
  lemma ShownAfter(cfg: Config, s: State, l: Step, j: nat, t: Task, m: Message, released: bool, copy: Option<Copy>,
      after: Task, applied: bool, stored: Option<Copy>)
    requires Serving(cfg, s, j, t, m) && Shows(s, t, released, copy) && Enabled(cfg, s, l) && OnTask(l, j)
    requires after.id == t.id && Apply(cfg, s, l) == Effect(s, j, after, applied, stored)
    requires if stored.Some? then copy.None? && after.copy == Some(|s.dlq|) else after.copy == t.copy
    ensures Reaches(Pipeline(cfg), s, Apply(cfg, s, l)) && Serving(cfg, Apply(cfg, s, l), j, after, m)
    ensures Shows(Apply(cfg, s, l), after, released || applied, Either(copy, stored))
  {
    hide Enabled, Apply, Valid, Final;
    OwnStep(cfg, s, l, j, t, m);
  }

  function AfterHandler(cfg: Config, t: Task, m: Message, ok: bool, error: string): Task {
    if ok then t.(done := t.done + 1, pc := NextHandler(t.done + 1, Handlers(cfg, m))) else t.(pc := Failed(error))
  }

  function AfterParse(cfg: Config, t: Task, m: Message): Task {
    t.(pc := ParsedPc(cfg, t, m))
  }

  /** What each step of a task does to the whole pipeline. */
  lemma TaskSteps(cfg: Config, s: State, j: nat, t: Task, m: Message)
    requires Serving(cfg, s, j, t, m)
    ensures t.pc.Received? ==>
              Enabled(cfg, s, Parse(j)) && Apply(cfg, s, Parse(j)) == Effect(s, j, AfterParse(cfg, t, m), false, None)
    ensures t.pc.Failed? ==>
              && Enabled(cfg, s, Triage(j))
              && Apply(cfg, s, Triage(j)) == Effect(s, j, t.(pc := TriagePc(cfg, t, t.pc.error)), false, None)
    ensures t.pc.DeadLettering? ==>
              && Enabled(cfg, s, DlqOffline(j))
              && Apply(cfg, s, DlqOffline(j)) == Effect(s, j, t.(pc := Naking), false, None)
    ensures t.pc.Naking? ==>
              Enabled(cfg, s, Nak(j)) && Apply(cfg, s, Nak(j)) == Effect(s, j, t.(pc := Ended), false, None)
  {
    hide Decode, DeadLetter, RowFor, Storable;
  }

  lemma HandlerSteps(cfg: Config, s: State, j: nat, t: Task, m: Message, ok: bool, error: string)
    requires Serving(cfg, s, j, t, m) && t.pc.Handling?
    ensures var l := if ok then HandlerOk(j) else HandlerRaise(j, error);
            Enabled(cfg, s, l) && Apply(cfg, s, l) == Effect(s, j, AfterHandler(cfg, t, m, ok, error), false, None)
  {
    hide Decode, DeadLetter, RowFor, Storable, Decodable, Captured, Reachable;
  }

  lemma AckSteps(cfg: Config, s: State, j: nat, t: Task, m: Message, applied: bool, raised: bool, error: string)
    requires Serving(cfg, s, j, t, m)
    ensures t.pc.Acking? ==>
              && Enabled(cfg, s, Ack(j, applied, raised, error))
              && Apply(cfg, s, Ack(j, applied, raised, error)) ==
                 Effect(s, j, t.(pc := if raised then Failed(error) else Ended), applied, None)
    ensures t.pc.Confirming? ==>
              && Enabled(cfg, s, Confirm(j, applied))
              && Apply(cfg, s, Confirm(j, applied)) == Effect(s, j, t.(pc := Ended), applied, None)
  {
    hide Decode, DeadLetter, RowFor, Storable;
  }

  lemma PublishSteps(cfg: Config, s: State, j: nat, t: Task, m: Message, stored: bool, raised: bool)
    requires Serving(cfg, s, j, t, m) && t.pc.DeadLettering? && t.copy.None? && (stored || raised)
    ensures Enabled(cfg, s, DlqPublish(j, stored, raised))
    ensures var after := t.(pc := if raised then Naking else Confirming, copy := if stored then Some(|s.dlq|)
        else None);
            Apply(cfg, s, DlqPublish(j, stored, raised)) ==
            Effect(s, j, after, false, if stored then Some(DeadLetter(cfg, m, t.pc.error, t.pc.count)) else None)
  {
    hide Decode, DeadLetter, RowFor, Storable;
  }

  class NatsConsumer {
    const cfg: Config
    /** Nothing else happens in the pipeline while its calls await. */
    ghost const alone: bool
    /** The whole pipeline; this consumer's calls and everyone else's steps change it. */
    ghost var world: State

    constructor (cfg: Config, ghost alone: bool)
      ensures this.cfg == cfg && this.alone == alone && world == Empty()
    {
      this.cfg, this.alone, world := cfg, alone, Empty();
    }

    /** Task `j` is at `t` in a world that `before` has run to, with `released` and `copy` true of it. */
    ghost predicate At(before: State, j: nat, t: Task, m: Message, released: bool, copy: Option<Copy>)
      reads this
    {
      && Reaches(Pipeline(cfg), before, world) && Serving(cfg, world, j, t, m) && Shows(world, t, released, copy)
      && (alone ==>
            j < |before.tasks| && t.id < |before.retained| && world == Effect(before, j, t, released, copy))
    }

    /** While task `j` awaits, the others make any number of steps. */
    ghost method Others(before: State, j: nat, t: Task, m: Message, released: bool, copy: Option<Copy>)
      requires At(before, j, t, m, released, copy)
      modifies this
      ensures At(before, j, t, m, released, copy)
    {
      if !alone {
        ReachesRefl(Pipeline(cfg), world);
        var next: State :|
          Reaches(Pipeline(cfg), world, next) && j < |next.tasks| && next.tasks[j] == t;
        ShownStays(cfg, world, next, j, t, m, released, copy);
        ReachesTrans(Pipeline(cfg), before, world, next);
        world := next;
      }
    }

    /** A step of task `j` itself. */
    ghost method Perform(l: Step, before: State, j: nat, t: Task, m: Message, released: bool, copy: Option<Copy>,
                         after: Task, applied: bool, stored: Option<Copy>)
      requires At(before, j, t, m, released, copy) && Enabled(cfg, world, l) && OnTask(l, j) && after.id == t.id
      requires Apply(cfg, world, l) == Effect(world, j, after, applied, stored)
      requires if stored.Some? then copy.None? && after.copy == Some(|world.dlq|) else after.copy == t.copy
      modifies this
      ensures At(before, j, after, m, released || applied, Either(copy, stored))
    {
      hide Valid, Final, Apply, Enabled, Effect;
      var next := Apply(cfg, world, l);
      ShownAfter(cfg, world, l, j, t, m, released, copy, after, applied, stored);
      ReachesTrans(Pipeline(cfg), before, world, next);
      if alone {
        EffectThen(before, j, t, released, copy, after, applied, stored);
      }
      world := next;
    }

    lemma StartAt(j: nat, t: Task, m: Message)
      requires Serving(cfg, world, j, t, m) && t.copy.None?
      ensures At(world, j, t, m, false, None)
    {
      ReachesRefl(Pipeline(cfg), world);
    }

    /** `await handler(event)` */
    method CallHandler(ok: bool, error: string, ghost before: State, j: nat, ghost t: Task, ghost m: Message)
      requires At(before, j, t, m, false, None) && t.pc.Handling?
      modifies this
      ensures At(before, j, AfterHandler(cfg, t, m, ok, error), m, false, None)
    {
      hide Valid, Final, Apply, Enabled, Effect;
      Others(before, j, t, m, false, None);
      HandlerSteps(cfg, world, j, t, m, ok, error);
      Perform(if ok then HandlerOk(j) else HandlerRaise(j, error), before, j, t, m, false, None,
              AfterHandler(cfg, t, m, ok, error), false, None);
    }

    /** `await msg.ack()` after the handlers. */
    method AckHandled(applied: bool, raised: bool, error: string, ghost before: State, j: nat, ghost t: Task,
        ghost m: Message)
      requires At(before, j, t, m, false, None) && t.pc.Acking?
      modifies this
      ensures At(before, j, t.(pc := if raised then Failed(error) else Ended), m, applied, None)
    {
      hide Valid, Final, Apply, Enabled, Effect;
      Others(before, j, t, m, false, None);
      AckSteps(cfg, world, j, t, m, applied, raised, error);
      Perform(Ack(j, applied, raised, error), before, j, t, m, false, None,
              t.(pc := if raised then Failed(error) else Ended), applied, None);
    }

    /** `await msg.nak()`; whether it raises does not change what the server holds. */
    method NakMessage(ghost before: State, j: nat, ghost t: Task, ghost m: Message, ghost released: bool,
        ghost copy: Option<Copy>)
      requires At(before, j, t, m, released, copy) && t.pc.Naking?
      modifies this
      ensures At(before, j, t.(pc := Ended), m, released, copy)
    {
      hide Valid, Final, Apply, Enabled, Effect;
      Others(before, j, t, m, released, copy);
      TaskSteps(cfg, world, j, t, m);
      Perform(Nak(j), before, j, t, m, released, copy, t.(pc := Ended), false, None);
    }

    /** `await js.publish(dlq_subject, ...)` */
    method PublishCopy(stored: bool, raised: bool, ghost before: State, j: nat, ghost t: Task, ghost m: Message,
        ghost released: bool)
      returns (ghost after: Task)
      requires At(before, j, t, m, released, None) && t.pc.DeadLettering? && (stored || raised)
      modifies this
      ensures after.(copy := None) == t.(pc := if raised then Naking else Confirming)
      ensures At(before, j, after, m, released, if stored then Some(DeadLetter(cfg, m, t.pc.error, t.pc.count))
          else None)
    {
      hide Valid, Final, Apply, Enabled, Effect, DeadLetter;
      Others(before, j, t, m, released, None);
      after := t.(pc := if raised then Naking else Confirming, copy := if stored then Some(|world.dlq|) else None);
      PublishSteps(cfg, world, j, t, m, stored, raised);
      Perform(DlqPublish(j, stored, raised), before, j, t, m, released, None, after, false,
              if stored then Some(DeadLetter(cfg, m, t.pc.error, t.pc.count)) else None);
    }

    /** `await msg.ack()` once the copy is durable. */
    method AckCopied(applied: bool, ghost before: State, j: nat, ghost t: Task, ghost m: Message,
        ghost released: bool, ghost copy: Option<Copy>)
      requires At(before, j, t, m, released, copy) && t.pc.Confirming?
      modifies this
      ensures At(before, j, t.(pc := Ended), m, released || applied, copy)
    {
      hide Valid, Final, Apply, Enabled, Effect;
      Others(before, j, t, m, released, copy);
      AckSteps(cfg, world, j, t, m, applied, false, "");
      Perform(Confirm(j, applied), before, j, t, m, released, copy, t.(pc := Ended), applied, None);
    }

    /** `_dead_letter`: publish a copy, then ack the original. */
    method DeadLetterMessage(m: Message, error: string, count: nat, env: Env, done: nat, released: bool,
                             ghost before: State, j: nat, ghost t: Task)
      returns (v: Verdict, ghost last: Task)
      requires At(before, j, t, m, released, None) && Possible(env)
      requires t.pc == DeadLettering(error, count) && t.done == done
      modifies this
      ensures v == DeadLetterVerdict(cfg, m, env, error, count, done, released)
      ensures At(before, j, last, m, v.released, v.copy) && last.pc.Ended? && last.done == done && last.id == t.id
    {
      hide Valid, Final, Apply, Enabled, Effect, DeadLetter;
      if !env.connected {
        TaskSteps(cfg, world, j, t, m);
        Perform(DlqOffline(j), before, j, t, m, released, None, t.(pc := Naking), false, None);
        NakMessage(before, j, t.(pc := Naking), m, released, None);
        return Verdict(done, None, released, env.nakRaised), t.(pc := Ended);
      }
      last := PublishCopy(env.copyStored, env.copyRaised, before, j, t, m, released);
      var copy := if env.copyStored then Some(DeadLetter(cfg, m, error, count)) else None;
      if env.copyRaised {
        NakMessage(before, j, last, m, released, copy);
        v := Verdict(done, copy, released, env.nakRaised);
      } else {
        AckCopied(env.confirmApplied, before, j, last, m, released, copy);
        v := Verdict(done, copy, released || env.confirmApplied, env.confirmRaised);
      }
      last := last.(pc := Ended);
    }

    /** `_handle_delivery_failure`: nak for another attempt, or dead-letter after the last one. */
    method HandleDeliveryFailure(m: Message, number: nat, metadata: bool, env: Env, done: nat, released: bool,
                                 ghost before: State, j: nat, ghost t: Task)
      returns (v: Verdict, ghost last: Task)
      requires At(before, j, t, m, released, None) && Possible(env)
      requires t.pc == Failed(env.error) && t.done == done && t.number == number && t.metadata == metadata
      modifies this
      ensures v == FailureVerdict(cfg, m, number, metadata, env, done, released)
      ensures At(before, j, last, m, v.released, v.copy) && last.pc.Ended? && last.done == done && last.id == t.id
    {
      var delivered := NumDelivered(number, metadata, cfg.maxDeliver);
      hide Valid, Final, Apply, Enabled, Effect, DeadLetter;
      last := t.(pc := TriagePc(cfg, t, env.error));
      TaskSteps(cfg, world, j, t, m);
      Perform(Triage(j), before, j, t, m, released, None, last, false, None);
      if delivered < cfg.maxDeliver {
        NakMessage(before, j, last, m, released, None);
        v, last := Verdict(done, None, released, env.nakRaised), last.(pc := Ended);
      } else {
        v, last := DeadLetterMessage(m, env.error, delivered, env, done, released, before, j, last);
      }
    }

    /** `_handle_message` and `_route_poison_message`. Whatever the other tasks do meanwhile, the call is
        a run of the pipeline, it ends its delivery, and it comes to what `Handle` says. If they do nothing, it
        changes nothing but its own task, its message's place in the queue, and the copy it stores. */
    method HandleMessage(m: Message, number: nat, metadata: bool, env: Env, j: nat, ghost id: nat)
      returns (v: Verdict, ghost last: Task)
      requires Serving(cfg, world, j, Task(id, number, metadata, 0, Received, None), m)
      requires Possible(env) && Handlers(cfg, m) <= |env.handlers|
      modifies this
      ensures v == Handle(cfg, m, number, metadata, env)
      ensures Decides(cfg, m, number, metadata, env, SomeFail(env.handlers, Handlers(cfg, m)), v)
      ensures RunsHandlers(cfg, m, env.handlers, v.handlersRun)
      ensures At(old(world), j, last, m, v.released, v.copy)
      ensures last.pc.Ended? && last.done == v.handlersRun && last.id == id
      ensures alone ==> world == Effect(old(world), j, last, v.released, v.copy)
    {
      HandleDecides(cfg, m, number, metadata, env);
      ghost var before, t := world, Task(id, number, metadata, 0, Received, None);
      last := AfterParse(cfg, t, m);
      StartAt(j, t, m);
      TaskSteps(cfg, world, j, t, m);
      Perform(Parse(j), before, j, t, m, false, None, last, false, None);
      match Decode(cfg.registry, m.data)
      case Failure(error) =>
        if error != EventSerializationError {
          return Verdict(0, None, false, true), last;
        }
        var count := NumDelivered(number, metadata, 1);
        v, last := DeadLetterMessage(m, "EventSerializationError", count, env, 0, false, before, j, last);
      case Success(_) =>
        v, last := RunHandlers(m, number, metadata, env, before, j, last);
    }

    /** The `try` block of `_handle_message`. */
    method RunHandlers(m: Message, number: nat, metadata: bool, env: Env, ghost before: State, j: nat, ghost t: Task)
      returns (v: Verdict, ghost last: Task)
      requires At(before, j, t, m, false, None) && Possible(env) && Handlers(cfg, m) <= |env.handlers|
      requires t == Task(t.id, number, metadata, 0, NextHandler(0, Handlers(cfg, m)), None) && Decodable(cfg, m)
      modifies this
      ensures v == Handle(cfg, m, number, metadata, env)
      ensures At(before, j, last, m, v.released, v.copy) && last.pc.Ended? && last.done == v.handlersRun
          && last.id == t.id
    {
      assert Loadable(m.data);
      hide Valid, Final, Apply, Enabled, Completed, FailureVerdict, Decode, Decodable;
      var done;
      done, last := CallHandlers(m, env, before, j, t);
      CompletedIs(env.handlers, Handlers(cfg, m), done);
      FailureRuns(cfg, m, number, metadata, env, done, false);
      FailureRuns(cfg, m, number, metadata, env, done, env.ackApplied);
      if done == Handlers(cfg, m) {
        AckHandled(env.ackApplied, env.ackRaised, env.error, before, j, last, m);
        if !env.ackRaised {
          v, last := Verdict(done, None, env.ackApplied, false), last.(pc := Ended);
          return;
        }
        last := last.(pc := Failed(env.error));
        v, last := HandleDeliveryFailure(m, number, metadata, env, done, env.ackApplied, before, j, last);
      } else {
        v, last := HandleDeliveryFailure(m, number, metadata, env, done, false, before, j, last);
      }
    }

    /** The handler loop; it stops at the first handler that raises. */
    method CallHandlers(m: Message, env: Env, ghost before: State, j: nat, ghost t: Task)
      returns (done: nat, ghost last: Task)
      requires At(before, j, t, m, false, None) && Handlers(cfg, m) <= |env.handlers|
      requires t.done == 0 && t.pc == NextHandler(0, Handlers(cfg, m)) && t.copy.None?
      modifies this
      ensures done <= Handlers(cfg, m) && (forall i | 0 <= i < done :: env.handlers[i])
      ensures done < Handlers(cfg, m) ==> !env.handlers[done]
      ensures last == t.(done := done, pc := if done < Handlers(cfg, m) then Failed(env.error) else Acking)
      ensures At(before, j, last, m, false, None)
    {
      var total := Handlers(cfg, m);
      hide Valid, Final;
      last, done := t, 0;
      while done < total
        invariant done <= total && (forall i | 0 <= i < done :: env.handlers[i])
        invariant At(before, j, last, m, false, None)
        invariant last == t.(done := done, pc := NextHandler(done, total))
      {
        CallHandler(env.handlers[done], env.error, before, j, last, m);
        last := AfterHandler(cfg, last, m, env.handlers[done], env.error);
        if !env.handlers[done] {
          return;
        }
        done := done + 1;
      }
    }
  }
}
